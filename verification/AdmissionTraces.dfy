/** What client handlers have done by the time something can be seen of them, in terms of what
    the outside answered: which request a limit in the map is, whom a failure is blamed on, that
    every scope is killed and everything acquired is released. */
module AdmissionTraces {
  import opened Options
  import opened Pacer
  import opened Admission
  import opened AdmissionRuns

  // ----- the order of awaits

  /** The awaits that an interrupt ends. */
  predicate Interruptible(pc: Pc) {
    || pc.AwaitSelfName? || pc.AwaitUnitByPid? || pc.AwaitOrigCgroup? || pc.AwaitScope?
    || pc.AwaitScopeCgroup? || pc.AwaitRead? || pc.AwaitExit?
  }

  /** The caller's fault: its cgroup has a limit already, or it sent no complete request in time. */
  predicate ClientsFault(pc: Pc, env: Env) {
    || pc.AwaitRecursiveLog?
    || (pc.AwaitRead? && env.result == Error && env.timedOut)
    || (pc.AwaitRead? && env.result == Ok && env.reply == None)
  }

  /** What has to have happened at `was` for a handler to get to `pc`. */
  predicate MayEnter(was: Pc, g: Shared, env: Env, pc: Pc) {
    match pc
    case AwaitSelfName => was.Start? && env.initOk && g.nr < 1000 && !g.unitName
    case AwaitUnitByPid =>
      (was.Start? && env.initOk && g.nr < 1000 && g.unitName) || (was.AwaitSelfName? && env.result == Ok)
    case AwaitReject => was.Start? && env.initOk && g.nr >= 1000
    case AwaitRejectShutdown => was.AwaitReject?
    case AwaitOrigCgroup => was.AwaitUnitByPid? && env.result == Ok
    case AwaitRecursiveLog => was.AwaitOrigCgroup? && env.result == Ok && env.checkOk && env.origCg in g.limits
    case AwaitScope => was.AwaitOrigCgroup? && env.result == Ok && !(env.checkOk && env.origCg in g.limits)
    case AwaitScopeCgroup => was.AwaitScope? && env.result == Ok && env.initOk
    case AwaitRead => was.AwaitScopeCgroup? && env.result == Ok && env.setOk
    case AwaitStartLog => was.AwaitRead? && env.result == Ok && env.reply.Some? && env.setOk
    case AwaitProceed => was.AwaitStartLog?
    case AwaitShutdown => was.AwaitProceed?
    case AwaitExit => was.AwaitShutdown?
    case AwaitKill => was.AwaitExit? && env.result != Interrupted
    case AwaitErrLog =>
      was.AwaitRecursiveLog? || ((LooksUp(was) || was.AwaitScopeCgroup? || was.AwaitRead?) && env.result != Interrupted)
    case AwaitErrMsg => was.AwaitErrLog?
    case AwaitErrShutdown => was.AwaitErrMsg?
    case AwaitIntMsg => Interruptible(was) && !was.AwaitExit? && env.result == Interrupted && env.sysExit
    case AwaitIntShutdown => was.AwaitIntMsg?
    case AwaitIntKill => was.AwaitIntShutdown? || (Interruptible(was) && env.result == Interrupted)
    case Ending =>
      || (was.Start? && !env.initOk)
      || was.AwaitRejectShutdown? || was.AwaitErrShutdown? || was.AwaitKill? || was.AwaitIntKill?
      || was.AwaitIntShutdown? || (Interruptible(was) && env.result == Interrupted)
    case _ => false
  }

  lemma AdmitEnters(h: Handler, g: Shared, env: Env)
    requires h.pc.Start?
    ensures MayEnter(h.pc, g, env, Admit(h, g, env).0.pc)
  {
  }

  lemma LookUpEnters(h: Handler, g: Shared, env: Env)
    requires LooksUp(h.pc)
    ensures MayEnter(h.pc, g, env, LookUp(h, g, env).0.pc)
  {
  }

  lemma BlockEnters(h: Handler, g: Shared, env: Env)
    requires h.pc.AwaitScopeCgroup?
    ensures MayEnter(h.pc, g, env, Block(h, g, env).0.pc)
  {
  }

  lemma EnforceEnters(h: Handler, g: Shared, env: Env)
    requires h.pc.AwaitRead?
    ensures MayEnter(h.pc, g, env, Enforce(h, g, env).0.pc)
  {
  }

  lemma WindDownEnters(h: Handler, g: Shared, env: Env)
    requires MessagesOk(h) && !Over(h.pc) && !h.pc.Start? && !LooksUp(h.pc) && !h.pc.AwaitScopeCgroup? && !h.pc.AwaitRead?
    ensures MayEnter(h.pc, g, env, WindDown(h, env).pc)
  {
  }

  /** Every stretch of a handler keeps to the order of awaits. */
  lemma ResumeEnters(h: Handler, g: Shared, env: Env)
    requires MessagesOk(h) && !Over(h.pc)
    ensures MayEnter(h.pc, g, env, Resume(h, g, env).0.pc)
  {
    if h.pc.Start? {
      AdmitEnters(h, g, env);
    } else if LooksUp(h.pc) {
      LookUpEnters(h, g, env);
    } else if h.pc.AwaitScopeCgroup? {
      BlockEnters(h, g, env);
    } else if h.pc.AwaitRead? {
      EnforceEnters(h, g, env);
    } else {
      WindDownEnters(h, g, env);
    }
  }

  /** What a handler has on record of its cgroup and its client's request, after a stretch. */
  ghost predicate Recorded(h: Handler, env: Env, h': Handler) {
    && (h'.cg == h.cg || (h.pc.AwaitScopeCgroup? && env.result == Ok && h'.cg == Some(env.cg)))
    && (h'.requested == h.requested || (h.pc.AwaitRead? && env.result == Ok && h'.requested == env.reply))
    && (h.pc.AwaitScopeCgroup? && h'.pc.AwaitRead? ==> h'.cg == Some(env.cg))
    && (h.pc.AwaitRead? && h'.pc.AwaitStartLog? ==> h'.requested == env.reply)
  }

  lemma EnforceRecords(h: Handler, g: Shared, env: Env)
    requires h.pc.AwaitRead?
    ensures Recorded(h, env, Enforce(h, g, env).0)
  {
  }

  lemma BlockRecords(h: Handler, g: Shared, env: Env)
    requires h.pc.AwaitScopeCgroup?
    ensures Recorded(h, env, Block(h, g, env).0)
  {
  }

  lemma OtherRecords(h: Handler, g: Shared, env: Env)
    requires !h.pc.AwaitRead? && !h.pc.AwaitScopeCgroup?
    ensures Recorded(h, env, Resume(h, g, env).0)
  {
    if LooksUp(h.pc) {
      LookUpRecords(h, g, env);
    } else if !h.pc.Start? {
      WindDownRecords(h, env);
    }
  }

  lemma LookUpRecords(h: Handler, g: Shared, env: Env)
    requires LooksUp(h.pc)
    ensures Recorded(h, env, LookUp(h, g, env).0)
  {
  }

  lemma WindDownRecords(h: Handler, env: Env)
    requires !h.pc.AwaitRead? && !h.pc.AwaitScopeCgroup?
    ensures Recorded(h, env, WindDown(h, env))
  {
  }

  /** It comes from the outside. */
  lemma ResumeRecords(h: Handler, g: Shared, env: Env)
    ensures Recorded(h, env, Resume(h, g, env).0)
  {
    if h.pc.AwaitRead? {
      EnforceRecords(h, g, env);
    } else if h.pc.AwaitScopeCgroup? {
      BlockRecords(h, g, env);
    } else {
      OtherRecords(h, g, env);
    }
  }

  // ----- the last thing a handler did

  /** A step that handler `id` takes. */
  predicate Own(step: Step, id: nat) {
    (step.Run? || step.CleanUp?) && step.id == id
  }

  /** `m` is the last step of handler `id` before `i`. */
  ghost predicate LastOwn(states: seq<Sys>, steps: seq<Step>, id: nat, m: nat, i: nat)
    requires i <= |steps| < |states|
  {
    && m < i && Own(steps[m], id) && id in states[m].handlers && id in states[i].handlers
    && forall j :: m < j <= i ==> id in states[j].handlers && states[j].handlers[id] == states[i].handlers[id]
  }

  lemma OthersStay(s: Sys, step: Step, id: nat)
    requires Enabled(s, step) && id in Apply(s, step).handlers && !Own(step, id) && step != Spawn(id)
    ensures id in s.handlers && Apply(s, step).handlers[id] == s.handlers[id]
  {
  }

  lemma {:induction false} LastStep(states: seq<Sys>, steps: seq<Step>, id: nat, i: nat) returns (m: nat)
    requires IsRun(states, steps) && states[0] == EMPTY && i <= |steps|
    requires id in states[i].handlers && !states[i].handlers[id].pc.Start?
    ensures LastOwn(states, steps, id, m, i)
    decreases i
  {
    assert i > 0;
    assert StepsAt(states, steps, i - 1);
    if Own(steps[i - 1], id) {
      m := i - 1;
    } else {
      OthersStay(states[i - 1], steps[i - 1], id);
      m := LastStep(states, steps, id, i - 1);
    }
  }

  /** Step `k` takes handler `id` from `pc` on. */
  ghost predicate RunsFrom(states: seq<Sys>, steps: seq<Step>, id: nat, k: nat, pc: Pc) {
    && k < |steps| < |states| && steps[k].Run? && steps[k].id == id
    && id in states[k].handlers && states[k].handlers[id].pc == pc
  }

  /** The handler got to where it is by a step that the order of awaits allows. */
  lemma CameFrom(states: seq<Sys>, steps: seq<Step>, id: nat, i: nat) returns (m: nat)
    requires IsRun(states, steps) && states[0] == EMPTY && i <= |steps|
    requires id in states[i].handlers && !states[i].handlers[id].pc.Start? && !Over(states[i].handlers[id].pc)
    ensures LastOwn(states, steps, id, m, i) && steps[m].Run?
    ensures var h, h' := states[m].handlers[id], states[i].handlers[id];
            && MayEnter(h.pc, states[m].g, steps[m].env, h'.pc) && h' == Resume(h, states[m].g, steps[m].env).0
    ensures CleanupsOk(states[i].handlers[id])
  {
    m := LastStep(states, steps, id, i);
    RunInv(states, steps, m);
    RunInv(states, steps, i);
    assert StepsAt(states, steps, m);
    assert states[m + 1].handlers[id] == states[i].handlers[id];
    ResumeEnters(states[m].handlers[id], states[m].g, steps[m].env);
  }

  // ----- the limit in the map is what the client asked for

  ghost predicate AllFresh(states: seq<Sys>, steps: seq<Step>)
    requires |states| > |steps|
  {
    forall m :: 0 <= m < |steps| ==> FreshId(states[m], steps[m])
  }

  /** While the handler stays as it is, the map holds its limit. */
  lemma HeldMeanwhile(states: seq<Sys>, steps: seq<Step>, id: nat, m: nat, i: nat, j: nat)
    requires IsRun(states, steps) && states[0] == EMPTY && AllFresh(states, steps)
    requires i <= |steps| && LastOwn(states, steps, id, m, i) && m < j <= i
    requires var h := states[i].handlers[id]; h.cg.Some? && !Over(h.pc)
    ensures var h := states[i].handlers[id];
            h.cg.value in states[j].g.limits && states[j].g.limits[h.cg.value] == LimitOf(h)
  {
    RunInv(states, steps, j);
    RunHolds(states, steps, j);
    assert HeldIn(states[j].g.limits, states[j].handlers[id]);
  }

  /** The path to PROCEED. The caller's cgroup had no limit when the handler looked, at `o`. The
      scope's cgroup id came at `b`, and from then on the map held all-drop for it. The client's
      request came at `m`, and from then on the map held that very request, PROCEED included. */
  lemma ProceedPath(states: seq<Sys>, steps: seq<Step>, id: nat, i: nat) returns (o: nat, b: nat, m: nat)
    requires IsRun(states, steps) && states[0] == EMPTY && AllFresh(states, steps)
    requires i < |steps| && steps[i].Run? && steps[i].id == id && id in states[i].handlers && id in states[i + 1].handlers
    requires Proceed !in states[i].handlers[id].wrote && Proceed in states[i + 1].handlers[id].wrote
    ensures o < b < m < i
    ensures RunsFrom(states, steps, id, o, AwaitOrigCgroup) && steps[o].env.result == Ok
    ensures !(steps[o].env.checkOk && steps[o].env.origCg in states[o].g.limits)
    ensures RunsFrom(states, steps, id, b, AwaitScopeCgroup) && steps[b].env.result == Ok
    ensures RunsFrom(states, steps, id, m, AwaitRead) && steps[m].env.result == Ok && steps[m].env.reply.Some?
    ensures forall j :: b < j <= m ==>
              steps[b].env.cg in states[j].g.limits && states[j].g.limits[steps[b].env.cg] == Limit(0, 0)
    ensures forall j :: m < j <= i + 1 ==>
              steps[b].env.cg in states[j].g.limits && states[j].g.limits[steps[b].env.cg] == steps[m].env.reply.value
  {
    m := ProceedHasRequest(states, steps, id, i);
    b := RequestHasCgroup(states, steps, id, m);
    o := CgroupHasCaller(states, steps, id, b);
    assert states[m].handlers[id].cg == Some(steps[b].env.cg);
    forall j | b < j <= m
      ensures steps[b].env.cg in states[j].g.limits && states[j].g.limits[steps[b].env.cg] == Limit(0, 0)
    {
      RunInv(states, steps, m);
      HeldMeanwhile(states, steps, id, b, m, j);
    }
    forall j | m < j <= i
      ensures steps[b].env.cg in states[j].g.limits && states[j].g.limits[steps[b].env.cg] == steps[m].env.reply.value
    {
      HeldMeanwhile(states, steps, id, m, i, j);
    }
    assert StepsAt(states, steps, i);
  }

  lemma ProceedHasRequest(states: seq<Sys>, steps: seq<Step>, id: nat, i: nat) returns (m: nat)
    requires IsRun(states, steps) && states[0] == EMPTY
    requires i < |steps| && steps[i].Run? && steps[i].id == id && id in states[i].handlers && id in states[i + 1].handlers
    requires Proceed !in states[i].handlers[id].wrote && Proceed in states[i + 1].handlers[id].wrote
    ensures states[i].handlers[id].pc.AwaitStartLog? && LastOwn(states, steps, id, m, i)
    ensures RunsFrom(states, steps, id, m, AwaitRead) && steps[m].env.result == Ok && steps[m].env.reply.Some?
    ensures states[i].handlers[id].requested == steps[m].env.reply && states[i].handlers[id].cg == states[m].handlers[id].cg
    ensures states[i].handlers[id].cg.Some?
  {
    assert StepsAt(states, steps, i);
    var h := states[i].handlers[id];
    if !h.pc.AwaitStartLog? {
      OnlyStartLogProceeds(h, states[i].g, steps[i].env);
    }
    m := CameFrom(states, steps, id, i);
    ResumeRecords(states[m].handlers[id], states[m].g, steps[m].env);
    RunInv(states, steps, m);
  }

  lemma RequestHasCgroup(states: seq<Sys>, steps: seq<Step>, id: nat, m: nat) returns (b: nat)
    requires IsRun(states, steps) && states[0] == EMPTY && RunsFrom(states, steps, id, m, AwaitRead)
    ensures LastOwn(states, steps, id, b, m)
    ensures RunsFrom(states, steps, id, b, AwaitScopeCgroup) && steps[b].env.result == Ok
    ensures states[m].handlers[id].cg == Some(steps[b].env.cg) && states[m].handlers[id].requested == None
  {
    b := CameFrom(states, steps, id, m);
    ResumeRecords(states[b].handlers[id], states[b].g, steps[b].env);
  }

  lemma CgroupHasCaller(states: seq<Sys>, steps: seq<Step>, id: nat, b: nat) returns (o: nat)
    requires IsRun(states, steps) && states[0] == EMPTY && RunsFrom(states, steps, id, b, AwaitScopeCgroup)
    ensures o < b && RunsFrom(states, steps, id, o, AwaitOrigCgroup) && steps[o].env.result == Ok
    ensures !(steps[o].env.checkOk && steps[o].env.origCg in states[o].g.limits)
  {
    var c := CameFrom(states, steps, id, b);
    o := CameFrom(states, steps, id, c);
  }

  /** A request that the kernel takes is put in force. */
  lemma EnforceGrants(h: Handler, g: Shared, env: Env)
    requires h.pc.AwaitRead? && env.result == Ok && env.reply.Some? && env.setOk && h.cg.Some? && h.cg.value in g.limits
    ensures Resume(h, g, env).0 == h.(requested := env.reply, pc := AwaitStartLog)
  {
  }

  /** And a complete request that the kernel takes leads to PROCEED at the handler's next step. */
  lemma RequestGranted(states: seq<Sys>, steps: seq<Step>, id: nat, m: nat, i: nat)
    requires IsRun(states, steps) && states[0] == EMPTY && AllFresh(states, steps)
    requires RunsFrom(states, steps, id, m, AwaitRead)
    requires steps[m].env.result == Ok && steps[m].env.reply.Some? && steps[m].env.setOk
    requires m < i < |steps| && LastOwn(states, steps, id, m, i) && steps[i].Run? && steps[i].id == id
    ensures id in states[i + 1].handlers && states[i + 1].handlers[id].wrote == [Proceed]
  {
    assert StepsAt(states, steps, m) && StepsAt(states, steps, i);
    RunInv(states, steps, m);
    RunHolds(states, steps, m);
    assert HeldIn(states[m].g.limits, states[m].handlers[id]);
    EnforceGrants(states[m].handlers[id], states[m].g, steps[m].env);
    assert states[m + 1].handlers[id] == states[i].handlers[id];
    assert states[m].handlers[id].wrote == [];
  }

  // ----- every limit in the map, until it is cleared

  /** A handler's steps leave its cgroup and its request on record, once they are there. */
  lemma StepRecords(states: seq<Sys>, steps: seq<Step>, id: nat, j: nat)
    requires IsRun(states, steps) && j < |steps| && id in states[j + 1].handlers && steps[j] != Spawn(id)
    ensures id in states[j].handlers
    ensures var h, h' := states[j].handlers[id], states[j + 1].handlers[id];
            if steps[j].Run? && steps[j].id == id then Recorded(h, steps[j].env, h') else h'.cg == h.cg && h'.requested == h.requested
  {
    assert StepsAt(states, steps, j);
    if steps[j].Run? && steps[j].id == id {
      ResumeRecords(states[j].handlers[id], states[j].g, steps[j].env);
    } else if !Own(steps[j], id) {
      OthersStay(states[j], steps[j], id);
    }
  }

  lemma {:induction false} RequestedAt(states: seq<Sys>, steps: seq<Step>, id: nat, j: nat) returns (m: nat)
    requires IsRun(states, steps) && states[0] == EMPTY && j <= |steps|
    requires id in states[j].handlers && states[j].handlers[id].requested.Some?
    ensures m < j && RunsFrom(states, steps, id, m, AwaitRead) && steps[m].env.result == Ok
    ensures steps[m].env.reply == states[j].handlers[id].requested
    decreases j
  {
    assert j > 0;
    assert StepsAt(states, steps, j - 1);
    StepRecords(states, steps, id, j - 1);
    if states[j - 1].handlers[id].requested == states[j].handlers[id].requested {
      m := RequestedAt(states, steps, id, j - 1);
    } else {
      m := j - 1;
    }
  }

  lemma {:induction false} CgroupAt(states: seq<Sys>, steps: seq<Step>, id: nat, j: nat) returns (b: nat)
    requires IsRun(states, steps) && states[0] == EMPTY && j <= |steps|
    requires id in states[j].handlers && states[j].handlers[id].cg.Some?
    ensures b < j && RunsFrom(states, steps, id, b, AwaitScopeCgroup) && steps[b].env.result == Ok
    ensures Some(steps[b].env.cg) == states[j].handlers[id].cg
    decreases j
  {
    assert j > 0;
    assert StepsAt(states, steps, j - 1);
    StepRecords(states, steps, id, j - 1);
    if states[j - 1].handlers[id].cg == states[j].handlers[id].cg {
      b := CgroupAt(states, steps, id, j - 1);
    } else {
      b := j - 1;
    }
  }

  /** As long as a handler has the limit of a cgroup to clear, also while its cleanups run, that
      is the cgroup id it was told of its scope, and the map holds for it all-drop or what the
      handler's client asked for. */
  lemma LimitIsAnswer(states: seq<Sys>, steps: seq<Step>, id: nat, j: nat, cg: nat) returns (b: nat, asked: bool, m: nat)
    requires IsRun(states, steps) && states[0] == EMPTY && AllFresh(states, steps) && j <= |steps|
    requires id in states[j].handlers && Clears(states[j].handlers[id].cleanups, cg)
    ensures b < j && RunsFrom(states, steps, id, b, AwaitScopeCgroup) && steps[b].env.result == Ok && steps[b].env.cg == cg
    ensures cg in states[j].g.limits
    ensures !asked ==> states[j].g.limits[cg] == Limit(0, 0)
    ensures asked ==> m < j && RunsFrom(states, steps, id, m, AwaitRead) && steps[m].env.result == Ok
    ensures asked ==> steps[m].env.reply == Some(states[j].g.limits[cg])
  {
    RunInv(states, steps, j);
    RunHolds(states, steps, j);
    var h := states[j].handlers[id];
    assert CleanupsOk(h) && HeldIn(states[j].g.limits, h);
    b := CgroupAt(states, steps, id, j);
    asked, m := h.requested.Some?, 0;
    if asked {
      m := RequestedAt(states, steps, id, j);
    }
  }

  // ----- who is let in

  /** A client is let in if and only if fewer than the maximum are, and is told that there is no
      room if and only if that many are. */
  lemma AdmittedIffRoom(states: seq<Sys>, steps: seq<Step>, id: nat, i: nat)
    requires IsRun(states, steps) && states[0] == EMPTY && RunsFrom(states, steps, id, i, Start) && steps[i].env.initOk
    ensures id in states[i + 1].handlers
    ensures id in Admitted(states[i + 1]) <==> |Admitted(states[i])| < 1000
    ensures states[i + 1].handlers[id].wrote == [Fail(NoResource)] <==> |Admitted(states[i])| == 1000
  {
    assert StepsAt(states, steps, i);
    RunInv(states, steps, i);
    RunInv(states, steps, i + 1);
    var h := states[i].handlers[id];
    assert CleanupsOk(h) && MessagesOk(h);
  }

  // ----- who is blamed

  /** Only a handler on its way out holds its client to be at fault. */
  ghost predicate Unblamed(h: Handler) {
    h.clientError ==> h.pc.AwaitErrLog? || h.pc.AwaitErrMsg? || h.pc.AwaitErrShutdown? || Over(h.pc)
  }

  lemma LookUpBlames(h: Handler, g: Shared, env: Env)
    requires LooksUp(h.pc) && !h.clientError
    ensures var h' := LookUp(h, g, env).0; Unblamed(h') && (h'.pc.AwaitErrLog? ==> (h'.clientError <==> ClientsFault(h.pc, env)))
  {
  }

  lemma EnforceBlames(h: Handler, g: Shared, env: Env)
    requires h.pc.AwaitRead? && !h.clientError
    ensures var h' := Enforce(h, g, env).0; Unblamed(h') && (h'.pc.AwaitErrLog? ==> (h'.clientError <==> ClientsFault(h.pc, env)))
  {
  }

  lemma BlockBlames(h: Handler, g: Shared, env: Env)
    requires h.pc.AwaitScopeCgroup? && !h.clientError
    ensures var h' := Block(h, g, env).0; Unblamed(h') && (h'.pc.AwaitErrLog? ==> (h'.clientError <==> ClientsFault(h.pc, env)))
  {
  }

  lemma WindDownBlames(h: Handler, env: Env)
    requires Unblamed(h) && !h.pc.Start? && !LooksUp(h.pc) && !h.pc.AwaitScopeCgroup? && !h.pc.AwaitRead?
    ensures Unblamed(WindDown(h, env)) && !WindDown(h, env).pc.AwaitErrLog?
  {
  }

  lemma ResumeBlames(h: Handler, g: Shared, env: Env)
    requires Unblamed(h) && !Over(h.pc)
    ensures var h' := Resume(h, g, env).0; Unblamed(h') && (h'.pc.AwaitErrLog? ==> (h'.clientError <==> ClientsFault(h.pc, env)))
  {
    if LooksUp(h.pc) {
      LookUpBlames(h, g, env);
    } else if h.pc.AwaitScopeCgroup? {
      BlockBlames(h, g, env);
    } else if h.pc.AwaitRead? {
      EnforceBlames(h, g, env);
    } else if !h.pc.Start? {
      WindDownBlames(h, env);
    }
  }

  lemma {:induction false} RunUnblamed(states: seq<Sys>, steps: seq<Step>, id: nat, i: nat)
    requires IsRun(states, steps) && states[0] == EMPTY && i <= |steps| && id in states[i].handlers
    ensures Unblamed(states[i].handlers[id])
    decreases i
  {
    assert i > 0;
    assert StepsAt(states, steps, i - 1);
    if steps[i - 1] != Spawn(id) {
      if !Own(steps[i - 1], id) {
        OthersStay(states[i - 1], steps[i - 1], id);
      }
      RunUnblamed(states, steps, id, i - 1);
      if steps[i - 1].Run? && steps[i - 1].id == id {
        ResumeBlames(states[i - 1].handlers[id], states[i - 1].g, steps[i - 1].env);
      }
    }
  }

  /** A handler that gives up tells its client that it is the client's fault if and only if it is:
      the caller has a limit already, its request did not come in time, or was not complete.
      Otherwise it says that the daemon failed. */
  lemma BlameIsRight(states: seq<Sys>, steps: seq<Step>, id: nat, i: nat) returns (m: nat)
    requires IsRun(states, steps) && states[0] == EMPTY && RunsFrom(states, steps, id, i, AwaitErrLog)
    ensures LastOwn(states, steps, id, m, i) && steps[m].Run? && id in states[i + 1].handlers
    ensures states[i + 1].handlers[id].wrote
         == [Fail(if ClientsFault(states[m].handlers[id].pc, steps[m].env) then YourError else Internal)]
  {
    m := CameFrom(states, steps, id, i);
    RunUnblamed(states, steps, id, m);
    ResumeBlames(states[m].handlers[id], states[m].g, steps[m].env);
    RunInv(states, steps, i);
    assert StepsAt(states, steps, i) && MessagesOk(states[i].handlers[id]);
  }

  /** An interrupt writes a message if and only if the daemon is about to exit and the client has
      not been told anything yet. */
  lemma InterruptSpeaks(h: Handler, g: Shared, env: Env)
    requires MessagesOk(h) && Interruptible(h.pc) && env.result == Interrupted
    ensures Resume(h, g, env).0.wrote == if env.sysExit && h.wrote == [] then [Fail(Internal)] else h.wrote
    ensures Resume(h, g, env).1 == g
  {
    assert Resume(h, g, env) == (ToInterrupt(h, env.sysExit), g);
  }

  // ----- the daemon's own name

  lemma ResumeName(h: Handler, g: Shared, env: Env)
    ensures Resume(h, g, env).1.unitName <==> g.unitName || (h.pc.AwaitSelfName? && env.result == Ok)
  {
  }

  /** Some handler has been told the name of the daemon's own unit before state `i`. */
  ghost predicate NameTold(states: seq<Sys>, steps: seq<Step>, i: nat)
    requires i <= |steps| < |states|
  {
    exists m :: 0 <= m < i && steps[m].Run? && RunsFrom(states, steps, steps[m].id, m, AwaitSelfName) && steps[m].env.result == Ok
  }

  /** The daemon knows its own name exactly from the first answer on; until then every handler that
      is let in asks for it, and afterwards none does (`MayEnter`). */
  lemma {:induction false} NameKnownIff(states: seq<Sys>, steps: seq<Step>, i: nat)
    requires IsRun(states, steps) && states[0] == EMPTY && i <= |steps|
    ensures states[i].g.unitName <==> NameTold(states, steps, i)
  {
    if i > 0 {
      NameKnownIff(states, steps, i - 1);
      assert StepsAt(states, steps, i - 1);
      var s, step := states[i - 1], steps[i - 1];
      if step.Run? {
        ResumeName(s.handlers[step.id], s.g, step.env);
      }
      assert NameTold(states, steps, i) <==>
               || NameTold(states, steps, i - 1)
               || (step.Run? && RunsFrom(states, steps, step.id, i - 1, AwaitSelfName) && step.env.result == Ok);
    }
  }
}
