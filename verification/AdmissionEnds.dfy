/** How client handlers end: the scope they started is killed, and whatever they acquired is
    released exactly once, last acquired first. */
module AdmissionEnds {
  import opened Options
  import opened Pacer
  import opened Admission
  import opened AdmissionRuns
  import opened AdmissionTraces

  // ----- the scope

  /** Where a handler has started its scope for sure, and where it has not. */
  ghost predicate ScopeOk(h: Handler) {
    && (h.pc.Start? || Rejected(h.pc) || LooksUp(h.pc) ==> !h.scope)
    && (h.pc.AwaitScopeCgroup? || h.pc.AwaitRead? || h.pc.AwaitStartLog? || Told(h.pc) || h.pc.AwaitIntKill? ==> h.scope)
  }

  /** What a stretch makes of the variable `scope_obj`. */
  ghost predicate ScopeStep(h: Handler, env: Env, h': Handler) {
    && ScopeOk(h')
    && (h'.scope <==> h.scope || (h.pc.AwaitScope? && env.result == Ok))
    && (h'.pc.Ending? && h'.scope ==> h.pc.AwaitKill? || h.pc.AwaitIntKill? || h.pc.AwaitErrShutdown?)
  }

  lemma LookUpScope(h: Handler, g: Shared, env: Env)
    requires ScopeOk(h) && LooksUp(h.pc)
    ensures ScopeStep(h, env, LookUp(h, g, env).0)
  {
  }

  lemma BlockScope(h: Handler, g: Shared, env: Env)
    requires ScopeOk(h) && h.pc.AwaitScopeCgroup?
    ensures ScopeStep(h, env, Block(h, g, env).0)
  {
  }

  lemma EnforceScope(h: Handler, g: Shared, env: Env)
    requires ScopeOk(h) && h.pc.AwaitRead?
    ensures ScopeStep(h, env, Enforce(h, g, env).0)
  {
  }

  lemma WindDownScope(h: Handler, env: Env)
    requires ScopeOk(h) && !Over(h.pc) && !h.pc.Start? && !LooksUp(h.pc) && !h.pc.AwaitScopeCgroup? && !h.pc.AwaitRead?
    ensures ScopeStep(h, env, WindDown(h, env))
  {
  }

  lemma ResumeScope(h: Handler, g: Shared, env: Env)
    requires ScopeOk(h) && !Over(h.pc)
    ensures ScopeStep(h, env, Resume(h, g, env).0)
  {
    if LooksUp(h.pc) {
      LookUpScope(h, g, env);
    } else if h.pc.AwaitScopeCgroup? {
      BlockScope(h, g, env);
    } else if h.pc.AwaitRead? {
      EnforceScope(h, g, env);
    } else if !h.pc.Start? {
      WindDownScope(h, env);
    }
  }

  /** Handler `id` has started its scope at step `m`, before `i`. */
  ghost predicate Began(states: seq<Sys>, steps: seq<Step>, id: nat, m: nat, i: nat)
    requires i <= |steps| < |states|
  {
    && m < i && RunsFrom(states, steps, id, m, AwaitScope) && steps[m].env.result == Ok
    && forall j :: m < j <= i ==> id in states[j].handlers
  }

  ghost predicate HasScope(states: seq<Sys>, steps: seq<Step>, id: nat, i: nat)
    requires i <= |steps| < |states|
  {
    exists m: nat :: Began(states, steps, id, m, i)
  }

  lemma HasScopeStep(states: seq<Sys>, steps: seq<Step>, id: nat, i: nat)
    requires i < |steps| < |states| && id in states[i].handlers && id in states[i + 1].handlers
    ensures HasScope(states, steps, id, i + 1) <==>
              HasScope(states, steps, id, i) || (RunsFrom(states, steps, id, i, AwaitScope) && steps[i].env.result == Ok)
  {
    if HasScope(states, steps, id, i) {
      var m: nat :| Began(states, steps, id, m, i);
      assert Began(states, steps, id, m, i + 1);
    }
    if HasScope(states, steps, id, i + 1) {
      var m: nat :| Began(states, steps, id, m, i + 1);
      assert m < i ==> Began(states, steps, id, m, i);
    }
    if RunsFrom(states, steps, id, i, AwaitScope) && steps[i].env.result == Ok {
      assert Began(states, steps, id, i, i + 1);
    }
  }

  /** The handler knows that it has started a scope exactly if it has. */
  lemma {:induction false} ScopeIff(states: seq<Sys>, steps: seq<Step>, id: nat, i: nat)
    requires IsRun(states, steps) && states[0] == EMPTY && i <= |steps| && id in states[i].handlers
    ensures ScopeOk(states[i].handlers[id]) && (states[i].handlers[id].scope <==> HasScope(states, steps, id, i))
    decreases i
  {
    assert i > 0;
    assert StepsAt(states, steps, i - 1);
    var step := steps[i - 1];
    if step == Spawn(id) {
      assert id !in states[i - 1].handlers;
      assert !HasScope(states, steps, id, i);
    } else {
      if !Own(step, id) {
        OthersStay(states[i - 1], step, id);
      }
      ScopeIff(states, steps, id, i - 1);
      HasScopeStep(states, steps, id, i - 1);
      if step.Run? && step.id == id {
        ResumeScope(states[i - 1].handlers[id], states[i - 1].g, step.env);
      }
    }
  }

  /** A handler that has started a scope and does not end in an error ends after it has had the
      scope killed; and it has a scope killed only if it has started one. */
  lemma EndsAfterKill(states: seq<Sys>, steps: seq<Step>, id: nat, i: nat)
    requires IsRun(states, steps) && states[0] == EMPTY && i < |steps| && steps[i].Run? && steps[i].id == id
    requires id in states[i].handlers && id in states[i + 1].handlers && states[i + 1].handlers[id].pc.Ending?
    ensures var pc := states[i].handlers[id].pc;
            && (HasScope(states, steps, id, i) && !pc.AwaitErrShutdown? ==> pc.AwaitKill? || pc.AwaitIntKill?)
            && (pc.AwaitKill? || pc.AwaitIntKill? ==> HasScope(states, steps, id, i))
  {
    assert StepsAt(states, steps, i);
    ScopeIff(states, steps, id, i);
    ResumeScope(states[i].handlers[id], states[i].g, steps[i].env);
  }

  /** A client that was told to go ahead has its scope killed when its process has ended, or when
      the handler is interrupted while it waits for that. */
  lemma KilledWhenOver(states: seq<Sys>, steps: seq<Step>, id: nat, i: nat) returns (m: nat)
    requires IsRun(states, steps) && states[0] == EMPTY && RunsFrom(states, steps, id, i, AwaitKill)
    ensures m < i && RunsFrom(states, steps, id, m, AwaitExit) && steps[m].env.result != Interrupted
    ensures Proceed in states[m].handlers[id].wrote
  {
    m := CameFrom(states, steps, id, i);
    RunInv(states, steps, m);
    assert MessagesOk(states[m].handlers[id]);
  }

  // ----- conservation

  /** What a stretch acquires, the last first: the stream, a place among the tasks, the names that
      systemd returns, the pidfd, the limit of the cgroup. */
  function Taken(was: Pc, g: Shared, env: Env): seq<Cleanup> {
    if was.Start? && env.initOk then if g.nr < 1000 then [DecreaseNrTasks, DestroyStream] else [DestroyStream]
    else if was.AwaitUnitByPid? && env.result == Ok then [FreeMemory]
    else if was.AwaitScope? && env.result == Ok then (if env.initOk then [DestroyPidfd] else []) + [FreeMemory, FreeMemory]
    else if was.AwaitScopeCgroup? && env.result == Ok && env.setOk && (env.cg in g.limits || |g.limits| < 1125)
         then [ClearRateLimit(env.cg)]
    else []
  }

  lemma AdmitTakes(h: Handler, g: Shared, env: Env)
    requires h.pc.Start? && h.cleanups == []
    ensures Admit(h, g, env).0.cleanups == Taken(h.pc, g, env) + h.cleanups
  {
  }

  lemma LookUpTakes(h: Handler, g: Shared, env: Env)
    requires LooksUp(h.pc)
    ensures LookUp(h, g, env).0.cleanups == Taken(h.pc, g, env) + h.cleanups
  {
  }

  lemma OthersTake(h: Handler, g: Shared, env: Env)
    requires !h.pc.Start? && !LooksUp(h.pc)
    ensures Resume(h, g, env).0.cleanups == Taken(h.pc, g, env) + h.cleanups
  {
  }

  lemma ResumeTakes(h: Handler, g: Shared, env: Env)
    requires CleanupsOk(h)
    ensures Resume(h, g, env).0.cleanups == Taken(h.pc, g, env) + h.cleanups
  {
    if h.pc.Start? {
      AdmitTakes(h, g, env);
    } else if LooksUp(h.pc) {
      LookUpTakes(h, g, env);
    } else {
      OthersTake(h, g, env);
    }
  }

  /** What handler `id` has acquired by state `i`, the last first. */
  ghost function Acquired(states: seq<Sys>, steps: seq<Step>, id: nat, i: nat): seq<Cleanup>
    requires i <= |steps| < |states|
  {
    if i == 0 || steps[i - 1] == Spawn(id) then []
    else
      var before := Acquired(states, steps, id, i - 1);
      if steps[i - 1].Run? && steps[i - 1].id == id && id in states[i - 1].handlers
      then Taken(states[i - 1].handlers[id].pc, states[i - 1].g, steps[i - 1].env) + before
      else before
  }

  /** What it has released, the first first. */
  ghost function Released(states: seq<Sys>, steps: seq<Step>, id: nat, i: nat): seq<Cleanup>
    requires i <= |steps| < |states|
  {
    if i == 0 || steps[i - 1] == Spawn(id) then []
    else
      var before := Released(states, steps, id, i - 1);
      if steps[i - 1].CleanUp? && steps[i - 1].id == id && id in states[i - 1].handlers && states[i - 1].handlers[id].cleanups != []
      then before + [states[i - 1].handlers[id].cleanups[0]]
      else before
  }

  /** Nothing is released before the handler has ended. */
  ghost predicate Balanced(states: seq<Sys>, steps: seq<Step>, id: nat, i: nat)
    requires i <= |steps| < |states| && id in states[i].handlers
  {
    var h := states[i].handlers[id];
    && Released(states, steps, id, i) + h.cleanups == Acquired(states, steps, id, i)
    && (!Over(h.pc) ==> Released(states, steps, id, i) == [])
  }

  lemma BalanceRun(states: seq<Sys>, steps: seq<Step>, id: nat, i: nat)
    requires IsRun(states, steps) && states[0] == EMPTY && i < |steps| && steps[i].Run? && steps[i].id == id
    requires id in states[i].handlers && Balanced(states, steps, id, i)
    ensures id in states[i + 1].handlers && Balanced(states, steps, id, i + 1)
  {
    assert StepsAt(states, steps, i);
    RunInv(states, steps, i);
    ResumeTakes(states[i].handlers[id], states[i].g, steps[i].env);
    assert Released(states, steps, id, i + 1) == [] && Released(states, steps, id, i) == [];
  }

  lemma BalanceCleanUp(states: seq<Sys>, steps: seq<Step>, id: nat, i: nat)
    requires IsRun(states, steps) && i < |steps| && steps[i].CleanUp? && steps[i].id == id
    requires id in states[i].handlers && Balanced(states, steps, id, i)
    ensures id in states[i + 1].handlers && Balanced(states, steps, id, i + 1)
  {
    assert StepsAt(states, steps, i);
    var cs, r := states[i].handlers[id].cleanups, Released(states, steps, id, i);
    if cs != [] {
      assert r + [cs[0]] + cs[1..] == r + cs;
    }
  }

  lemma {:induction false} RunBalanced(states: seq<Sys>, steps: seq<Step>, id: nat, i: nat)
    requires IsRun(states, steps) && states[0] == EMPTY && i <= |steps| && id in states[i].handlers
    ensures Balanced(states, steps, id, i)
    decreases i
  {
    assert i > 0;
    assert StepsAt(states, steps, i - 1);
    var step := steps[i - 1];
    if step != Spawn(id) {
      if !Own(step, id) {
        OthersStay(states[i - 1], step, id);
      }
      RunBalanced(states, steps, id, i - 1);
      if step.Run? && step.id == id {
        BalanceRun(states, steps, id, i - 1);
      } else if step.CleanUp? && step.id == id {
        BalanceCleanUp(states, steps, id, i - 1);
      }
    }
  }

  /** When a handler is done, what it has released is what it has acquired: all of it, each once,
      and the last acquired first. */
  lemma NothingLeaks(states: seq<Sys>, steps: seq<Step>, id: nat, i: nat)
    requires IsRun(states, steps) && states[0] == EMPTY && i <= |steps|
    requires id in states[i].handlers && states[i].handlers[id].pc.Ended?
    ensures Released(states, steps, id, i) == Acquired(states, steps, id, i)
  {
    RunBalanced(states, steps, id, i);
    RunInv(states, steps, i);
    assert CleanupsOk(states[i].handlers[id]);
  }
}
