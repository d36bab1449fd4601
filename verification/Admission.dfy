/** Client handlers of the daemon (src/main.c, src/se_libs.c, src/tcbpf_util.c): many of them
    interleave at their awaits, share the task counter and the map of limits, and each owns a
    list of cleanups that runs, last registered first, when it ends.

    A handler is a program counter that names the await it is in. What the outside world answers
    is in `Env`; every answer may be an error or an interrupt. */
module Admission {
  import opened Options
  import opened Pacer

  const MAX_NR_TASKS := 1000
  const ALL_DROP := Limit(0, 0)

  /** The size open_and_load_bpf_obj gives the map of limits. */
  function Capacity(maxTasks: nat): nat {
    maxTasks + (maxTasks + 7) / 8
  }

  // ----- data

  /** struct memory_to_free: the function to call, and its argument where it matters. */
  datatype Cleanup = FreeMemory | DestroyStream | DestroyPidfd | DecreaseNrTasks | ClearRateLimit(cg: nat)

  datatype FailReason = NoResource | Internal | YourError

  /** The two messages that end the exchange with a client. */
  datatype Msg = Proceed | Fail(reason: FailReason)

  datatype Pc =
    | Start
    | AwaitReject | AwaitRejectShutdown
    | AwaitSelfName | AwaitUnitByPid | AwaitOrigCgroup | AwaitRecursiveLog
    | AwaitScope | AwaitScopeCgroup | AwaitRead
    | AwaitStartLog | AwaitProceed | AwaitShutdown | AwaitExit | AwaitKill
    | AwaitErrLog | AwaitErrMsg | AwaitErrShutdown
    | AwaitIntMsg | AwaitIntShutdown | AwaitIntKill
    | Ending                    // its entry function has returned, cleanups are running
    | Ended                     // cleanups are done, the end handler has not run

  datatype Handler = Handler(
    pc: Pc,
    cleanups: seq<Cleanup>,     // the next to run comes first
    clientError: bool,
    stream: bool,               // the variable `stream` is not NULL
    scope: bool,                // the variable `scope_obj` is not NULL
    cg: Option<nat>,            // the cgroup whose limit it has set
    requested: Option<Limit>,   // the limit it has put in force for its client
    wrote: seq<Msg>)            // terminal messages it has issued

  datatype Result = Ok | Error | Interrupted

  /** What the outside answers during one stretch of a handler. */
  datatype Env = Env(
    result: Result,             // of the await the handler resumes from
    initOk: bool,               // init_msg_stream, init_pidfd_event
    origCg: nat,                // get_Unit_cgroup_id of the caller
    checkOk: bool,              // the kernel answers cgroup_rate_limit_check
    cg: nat,                    // get_Unit_cgroup_id of the scope
    setOk: bool,                // the kernel accepts cgroup_rate_limit_set
    timedOut: bool,             // the error of msg_stream_read is -ETIMEDOUT
    reply: Option<Limit>,       // msg_stream_read: a complete request, or not
    sysExit: bool)              // the interrupt's reason is SYS_WILL_EXIT

  datatype Shared = Shared(
    nr: int,                    // g_nr_tasks
    limits: map<nat, Limit>,    // rate_limit_map
    unitName: bool,             // g_this_unit_name is set
    leaked: set<nat>,           // keys whose removal the kernel refused
    aborted: bool)

  // ----- the handler, stretch by stretch

  function Push(h: Handler, c: Cleanup): Handler {
    h.(cleanups := [c] + h.cleanups)
  }

  function Issue(h: Handler, m: Msg, pc: Pc): Handler {
    h.(wrote := h.wrote + [m], pc := pc)
  }

  /** label err_close_stream */
  function ToError(h: Handler): Handler {
    h.(pc := AwaitErrLog)
  }

  function KillOrEnd(h: Handler): Handler {
    h.(pc := if h.scope then AwaitIntKill else Ending)
  }

  /** label interrupt */
  function ToInterrupt(h: Handler, sysExit: bool): Handler {
    if sysExit && h.stream then Issue(h, Fail(Internal), AwaitIntMsg) else KillOrEnd(h)
  }

  /** A call that failed or was interrupted. */
  function Failed(h: Handler, env: Env): Handler {
    if env.result == Interrupted then ToInterrupt(h, env.sysExit) else ToError(h)
  }

  /** cgroup_rate_limit_set: the map takes the key if the kernel agrees and there is room. */
  predicate SetWorks(g: Shared, cg: nat, ok: bool) {
    ok && (cg in g.limits || |g.limits| < Capacity(MAX_NR_TASKS))
  }

  /** Lines 188 to 206: the stream is set up and the task is admitted, or rejected. */
  function Admit(h: Handler, g: Shared, env: Env): (Handler, Shared) {
    if !env.initOk then (h.(pc := Ending), g)
    else
      var h1 := Push(h.(stream := true), DestroyStream);
      if g.nr >= MAX_NR_TASKS then (Issue(h1, Fail(NoResource), AwaitReject), g)
      else (Push(h1, DecreaseNrTasks).(pc := if g.unitName then AwaitUnitByPid else AwaitSelfName), g.(nr := g.nr + 1))
  }

  /** cgroup_rate_limit_check: the caller has a limit already. An error counts as none. */
  predicate Limited(g: Shared, env: Env) {
    env.checkOk && env.origCg in g.limits
  }

  /** Lines 208 to 291: what the handler asks systemd before it touches a limit. */
  function LookUp(h: Handler, g: Shared, env: Env): (Handler, Shared) {
    if h.pc.AwaitRecursiveLog? then (ToError(h.(clientError := true)), g)
    else if env.result != Ok then (Failed(h, env), g)
    else
      match h.pc
      case AwaitSelfName => (h.(pc := AwaitUnitByPid), g.(unitName := true))
      case AwaitUnitByPid => (Push(h, FreeMemory).(pc := AwaitOrigCgroup), g)
      case AwaitOrigCgroup => (h.(pc := if Limited(g, env) then AwaitRecursiveLog else AwaitScope), g)
      case _ =>
        var h1 := Push(Push(h.(scope := true), FreeMemory), FreeMemory);
        if !env.initOk then (ToError(h1), g) else (Push(h1, DestroyPidfd).(pc := AwaitScopeCgroup), g)
  }

  /** Lines 293 to 310: everything of the new cgroup is dropped until the client has spoken. */
  function Block(h: Handler, g: Shared, env: Env): (Handler, Shared) {
    if env.result != Ok then (Failed(h, env), g)
    else if !SetWorks(g, env.cg, env.setOk) then (ToError(h), g)
    else (Push(h.(cg := Some(env.cg)), ClearRateLimit(env.cg)).(pc := AwaitRead),
          g.(limits := g.limits[env.cg := ALL_DROP]))
  }

  /** Lines 314 to 353: the client's request is read and put in force. */
  function Enforce(h: Handler, g: Shared, env: Env): (Handler, Shared) {
    if env.result == Interrupted then (ToInterrupt(h, env.sysExit), g)
    else if env.result == Error then (ToError(h.(clientError := env.timedOut)), g)
    else if env.reply.None? then (ToError(h.(clientError := true)), g)
    else if h.cg.None? || !SetWorks(g, h.cg.value, env.setOk) then (ToError(h), g)
    else (h.(requested := env.reply, pc := AwaitStartLog),
          g.(limits := g.limits[h.cg.value := env.reply.value]))
  }

  /** Lines 354 to 369 and 370 to 401: from the first terminal message, or the last word before
      it, to the end. */
  function WindDown(h: Handler, env: Env): Handler {
    match h.pc
    case AwaitStartLog => Issue(h, Proceed, AwaitProceed)
    case AwaitProceed => h.(pc := AwaitShutdown)
    case AwaitShutdown => h.(stream := false, pc := AwaitExit)
    case AwaitExit => if env.result == Interrupted then ToInterrupt(h, env.sysExit) else h.(pc := AwaitKill)
    case AwaitErrLog => Issue(h, Fail(if h.clientError then YourError else Internal), AwaitErrMsg)
    case AwaitErrMsg => h.(pc := AwaitErrShutdown)
    case AwaitIntMsg => h.(pc := AwaitIntShutdown)
    case AwaitIntShutdown => KillOrEnd(h)
    case AwaitReject => h.(pc := AwaitRejectShutdown)
    case _ => h.(pc := Ending)
  }

  predicate LooksUp(pc: Pc) {
    pc.AwaitSelfName? || pc.AwaitUnitByPid? || pc.AwaitOrigCgroup? || pc.AwaitRecursiveLog? || pc.AwaitScope?
  }

  /** client_handler_async from one await to the next. */
  function Resume(h: Handler, g: Shared, env: Env): (Handler, Shared) {
    if h.pc.Start? then Admit(h, g, env)
    else if LooksUp(h.pc) then LookUp(h, g, env)
    else if h.pc.AwaitScopeCgroup? then Block(h, g, env)
    else if h.pc.AwaitRead? then Enforce(h, g, env)
    else (WindDown(h, env), g)
  }

  /** One call of a cleanup function; `ok` is whether the kernel removes a key it is asked to. */
  function Clean(g: Shared, c: Cleanup, ok: bool): Shared {
    match c
    case DecreaseNrTasks => if g.nr > 0 then g.(nr := g.nr - 1) else g.(aborted := true)
    case ClearRateLimit(cg) =>
      if cg !in g.limits then g
      else if ok then g.(limits := g.limits - {cg}, leaked := g.leaked - {cg})
      else g.(leaked := g.leaked + {cg})
    case _ => g
  }

  // ----- the system

  datatype Sys = Sys(g: Shared, handlers: map<nat, Handler>)

  datatype Step =
    | Spawn(id: nat)                    // se_task_create
    | Run(id: nat, env: Env)            // a handler goes on to its next await
    | CleanUp(id: nat, ok: bool)        // one turn of the loop of se_task_entry
    | Reap(id: nat)                     // se_task_end_handler

  const NEW := Handler(Start, [], false, false, false, None, None, [])

  predicate Enabled(s: Sys, step: Step) {
    match step
    case Spawn(id) => id !in s.handlers
    case Run(id, _) => id in s.handlers && !s.handlers[id].pc.Ending? && !s.handlers[id].pc.Ended?
    case CleanUp(id, _) => id in s.handlers && s.handlers[id].pc.Ending?
    case Reap(id) => id in s.handlers && s.handlers[id].pc.Ended?
  }

  function Apply(s: Sys, step: Step): Sys
    requires Enabled(s, step)
  {
    match step
    case Spawn(id) => s.(handlers := s.handlers[id := NEW])
    case Run(id, env) =>
      var (h, g) := Resume(s.handlers[id], s.g, env);
      Sys(g, s.handlers[id := h])
    case CleanUp(id, ok) =>
      var h := s.handlers[id];
      if h.cleanups == [] then s.(handlers := s.handlers[id := h.(pc := Ended)])
      else Sys(Clean(s.g, h.cleanups[0], ok), s.handlers[id := h.(cleanups := h.cleanups[1..])])
    case Reap(id) => s.(handlers := s.handlers - {id})
  }

  ghost predicate StepsAt(states: seq<Sys>, steps: seq<Step>, i: nat)
    requires i < |steps| < |states|
  {
    Enabled(states[i], steps[i]) && states[i + 1] == Apply(states[i], steps[i])
  }

  ghost predicate IsRun(states: seq<Sys>, steps: seq<Step>) {
    && |states| == |steps| + 1
    && forall i {:trigger StepsAt(states, steps, i)} :: 0 <= i < |steps| ==> StepsAt(states, steps, i)
  }

  const EMPTY := Sys(Shared(0, map[], false, {}, false), map[])

  // ----- what each handler keeps

  predicate HasDecrease(cs: seq<Cleanup>) {
    DecreaseNrTasks in cs
  }

  predicate Clears(cs: seq<Cleanup>, cg: nat) {
    ClearRateLimit(cg) in cs
  }

  /** The counter is released once, and after the limit is cleared. */
  predicate Stacked(cs: seq<Cleanup>) {
    cs == [] ||
    (&& Stacked(cs[1..])
     && (cs[0] == DecreaseNrTasks ==> !HasDecrease(cs[1..]) && forall c :: c in cs[1..] ==> !c.ClearRateLimit?)
     && (cs[0].ClearRateLimit? ==> HasDecrease(cs[1..]) && forall c :: c in cs[1..] ==> !c.ClearRateLimit?))
  }

  /** Before the limit of a cgroup is touched. */
  predicate Early(pc: Pc) {
    || pc.Start? || pc.AwaitReject? || pc.AwaitRejectShutdown?
    || pc.AwaitSelfName? || pc.AwaitUnitByPid? || pc.AwaitOrigCgroup? || pc.AwaitRecursiveLog?
    || pc.AwaitScope? || pc.AwaitScopeCgroup?
  }

  predicate Rejected(pc: Pc) {
    pc.AwaitReject? || pc.AwaitRejectShutdown?
  }

  predicate Over(pc: Pc) {
    pc.Ending? || pc.Ended?
  }

  /** The client has been told to go ahead. */
  predicate Told(pc: Pc) {
    pc.AwaitProceed? || pc.AwaitShutdown? || pc.AwaitExit? || pc.AwaitKill?
  }

  /** No terminal message has been issued yet. */
  predicate Silent(pc: Pc) {
    || pc.Start? || pc.AwaitSelfName? || pc.AwaitUnitByPid? || pc.AwaitOrigCgroup? || pc.AwaitRecursiveLog?
    || pc.AwaitScope? || pc.AwaitScopeCgroup? || pc.AwaitRead? || pc.AwaitStartLog? || pc.AwaitErrLog?
  }

  ghost predicate CleanupsOk(h: Handler) {
    && Stacked(h.cleanups)
    && (h.pc.Start? || h.pc.Ended? ==> h.cleanups == [])
    && (Rejected(h.pc) ==> !HasDecrease(h.cleanups))
    && (!h.pc.Start? && !Rejected(h.pc) && !Over(h.pc) ==> HasDecrease(h.cleanups))
    && (forall c :: c in h.cleanups && c.ClearRateLimit? ==> h.cg == Some(c.cg))
    && (Early(h.pc) ==> h.cg.None? && h.requested.None?)
    && (h.cg.Some? && !Over(h.pc) ==> Clears(h.cleanups, h.cg.value))
    && (h.pc.AwaitRead? ==> h.cg.Some? && h.requested.None?)
    && (h.requested.Some? ==> h.cg.Some?)
  }

  ghost predicate MessagesOk(h: Handler) {
    && |h.wrote| <= 1
    && (Silent(h.pc) ==> h.wrote == [])
    && (Told(h.pc) ==> h.wrote == [Proceed])
    && (Told(h.pc) || h.pc.AwaitStartLog? || Proceed in h.wrote ==> h.requested.Some?)
    && (h.pc.AwaitExit? ==> !h.stream)
    && (LooksUp(h.pc) || h.pc.AwaitScopeCgroup? || h.pc.AwaitRead? ==> h.stream)
    && (h.pc.AwaitIntMsg? || h.pc.AwaitIntShutdown? ==> h.wrote == [Fail(Internal)])
    && (Rejected(h.pc) ==> h.wrote == [Fail(NoResource)])
    && (h.pc.AwaitErrMsg? || h.pc.AwaitErrShutdown? ==> h.wrote == [Fail(if h.clientError then YourError else Internal)])
    && (Fail(YourError) in h.wrote ==> h.clientError)
  }

  lemma InterruptMessages(h: Handler, sysExit: bool)
    requires MessagesOk(h) && (h.wrote == [] || !h.stream)
    ensures MessagesOk(ToInterrupt(h, sysExit))
  {
  }

  lemma ErrorMessages(h: Handler, clientError: bool)
    requires MessagesOk(h) && h.wrote == []
    ensures MessagesOk(ToError(h.(clientError := clientError)))
  {
  }

  lemma SpeakMessages(h: Handler, env: Env)
    requires MessagesOk(h) && (h.pc.AwaitStartLog? || h.pc.AwaitErrLog?)
    ensures MessagesOk(WindDown(h, env))
  {
  }

  lemma WindDownMessages(h: Handler, env: Env)
    requires MessagesOk(h)
    ensures MessagesOk(WindDown(h, env))
  {
    if h.pc.AwaitExit? && env.result == Interrupted {
      InterruptMessages(h, env.sysExit);
    } else if h.pc.AwaitStartLog? || h.pc.AwaitErrLog? {
      SpeakMessages(h, env);
    } else {
      assert WindDown(h, env).wrote == h.wrote;
    }
  }

  lemma LookUpMessages(h: Handler, g: Shared, env: Env)
    requires MessagesOk(h) && LooksUp(h.pc)
    ensures MessagesOk(LookUp(h, g, env).0)
  {
    InterruptMessages(h, env.sysExit);
    ErrorMessages(h, true);
    ErrorMessages(h, h.clientError);
  }

  lemma EnforceMessages(h: Handler, g: Shared, env: Env)
    requires MessagesOk(h) && h.pc.AwaitRead?
    ensures MessagesOk(Enforce(h, g, env).0)
  {
    InterruptMessages(h, env.sysExit);
    ErrorMessages(h, true);
    ErrorMessages(h, env.timedOut);
    ErrorMessages(h, h.clientError);
  }

  lemma BlockMessages(h: Handler, g: Shared, env: Env)
    requires MessagesOk(h) && h.pc.AwaitScopeCgroup?
    ensures MessagesOk(Block(h, g, env).0)
  {
    InterruptMessages(h, env.sysExit);
    ErrorMessages(h, h.clientError);
  }

  lemma AdmitMessages(h: Handler, g: Shared, env: Env)
    requires MessagesOk(h) && h.pc.Start?
    ensures MessagesOk(Admit(h, g, env).0)
  {
  }

  lemma ResumeMessages(h: Handler, g: Shared, env: Env)
    requires MessagesOk(h)
    ensures MessagesOk(Resume(h, g, env).0)
  {
    if h.pc.Start? {
      AdmitMessages(h, g, env);
    } else if LooksUp(h.pc) {
      LookUpMessages(h, g, env);
    } else if h.pc.AwaitScopeCgroup? {
      BlockMessages(h, g, env);
    } else if h.pc.AwaitRead? {
      EnforceMessages(h, g, env);
    } else {
      WindDownMessages(h, env);
    }
  }

  // ----- cleanup lists

  /** Registering one more cleanup. */
  lemma PushStacked(cs: seq<Cleanup>, c: Cleanup)
    requires Stacked(cs)
    requires c == DecreaseNrTasks ==> !HasDecrease(cs) && forall x :: x in cs ==> !x.ClearRateLimit?
    requires c.ClearRateLimit? ==> HasDecrease(cs) && forall x :: x in cs ==> !x.ClearRateLimit?
    ensures Stacked([c] + cs)
  {
    assert ([c] + cs)[1..] == cs;
  }

  /** The rest of a handler's list, and what it has to do with its cgroup, are as before. */
  predicate SameStack(h: Handler, h': Handler) {
    h'.cleanups == h.cleanups && h'.cg == h.cg && h'.requested == h.requested
  }

  lemma SameStackOk(h: Handler, h': Handler)
    requires CleanupsOk(h) && SameStack(h, h')
    requires !h'.pc.Start? && !h'.pc.AwaitRead? && !h'.pc.Ended?
    requires Rejected(h'.pc) ==> Rejected(h.pc)
    requires Over(h'.pc) || Rejected(h'.pc) || (!h.pc.Start? && !Rejected(h.pc) && !Over(h.pc))
    requires Early(h'.pc) ==> Early(h.pc)
    requires Over(h.pc) ==> Over(h'.pc)
    ensures CleanupsOk(h')
  {
  }

  lemma InterruptStack(h: Handler, sysExit: bool)
    requires CleanupsOk(h) && !h.pc.Start? && !Rejected(h.pc) && !Over(h.pc)
    ensures CleanupsOk(ToInterrupt(h, sysExit)) && SameStack(h, ToInterrupt(h, sysExit))
  {
    SameStackOk(h, ToInterrupt(h, sysExit));
  }

  lemma ErrorStack(h: Handler, clientError: bool)
    requires CleanupsOk(h) && !h.pc.Start? && !Rejected(h.pc) && !Over(h.pc)
    ensures var h' := ToError(h.(clientError := clientError)); CleanupsOk(h') && SameStack(h, h')
  {
    SameStackOk(h, ToError(h.(clientError := clientError)));
  }

  lemma FailedStack(h: Handler, env: Env)
    requires CleanupsOk(h) && !h.pc.Start? && !Rejected(h.pc) && !Over(h.pc)
    ensures CleanupsOk(Failed(h, env)) && SameStack(h, Failed(h, env))
  {
    if env.result == Interrupted {
      InterruptStack(h, env.sysExit);
    } else {
      ErrorStack(h, h.clientError);
    }
  }

  lemma WindDownPc(h: Handler, env: Env)
    requires !Over(h.pc) && !h.pc.Start? && !h.pc.AwaitScopeCgroup? && !h.pc.AwaitRead? && !LooksUp(h.pc)
    ensures var h' := WindDown(h, env);
            && SameStack(h, h') && !h'.pc.Start? && !h'.pc.AwaitRead? && !h'.pc.Ended?
            && (Rejected(h'.pc) || Early(h'.pc) ==> Rejected(h.pc))
            && (Over(h'.pc) || (Rejected(h'.pc) <==> Rejected(h.pc)))
  {
  }

  lemma WindDownStack(h: Handler, env: Env)
    requires CleanupsOk(h) && !Over(h.pc) && !h.pc.Start? && !h.pc.AwaitScopeCgroup? && !h.pc.AwaitRead? && !LooksUp(h.pc)
    ensures CleanupsOk(WindDown(h, env)) && SameStack(h, WindDown(h, env))
  {
    WindDownPc(h, env);
    SameStackOk(h, WindDown(h, env));
  }

  /** A stretch of a handler, seen from the shared counter and map: `h` becomes `h'`. */
  ghost predicate Accounts(h: Handler, g: Shared, h': Handler, g': Shared) {
    && !g'.aborted == !g.aborted && g'.leaked == g.leaked
    && (HasDecrease(h.cleanups) ==> HasDecrease(h'.cleanups) && g'.nr == g.nr)
    && (!HasDecrease(h.cleanups) ==> g'.nr == if HasDecrease(h'.cleanups) then g.nr + 1 else g.nr)
    && (g'.nr > g.nr ==> g'.nr <= MAX_NR_TASKS)
    && (forall cg :: Clears(h.cleanups, cg) ==> Clears(h'.cleanups, cg))
    && (forall cg :: cg in g'.limits ==> cg in g.limits || Clears(h'.cleanups, cg))
  }

  lemma SameAccounts(h: Handler, g: Shared, h': Handler, unitName: bool)
    requires h'.cleanups == h.cleanups
    ensures Accounts(h, g, h', g.(unitName := unitName))
  {
  }

  lemma PushAccounts(h: Handler, g: Shared, h': Handler, c: Cleanup)
    requires h'.cleanups == [c] + h.cleanups && c != DecreaseNrTasks
    ensures HasDecrease(h'.cleanups) <==> HasDecrease(h.cleanups)
    ensures Accounts(h, g, h', g)
  {
  }

  /** Registering memory to free changes nothing for the counter and the map. */
  lemma PushPlain(h: Handler, c: Cleanup, pc: Pc)
    requires CleanupsOk(h) && LooksUp(h.pc) && c != DecreaseNrTasks && !c.ClearRateLimit?
    requires LooksUp(pc) || pc.AwaitScopeCgroup?
    ensures CleanupsOk(Push(h, c).(pc := pc))
  {
    PushStacked(h.cleanups, c);
  }

  lemma AdmitStack(h: Handler, g: Shared, env: Env)
    requires CleanupsOk(h) && h.pc.Start?
    ensures var (h', g') := Admit(h, g, env); CleanupsOk(h') && Accounts(h, g, h', g')
  {
    PushStacked([], DestroyStream);
    PushStacked([DestroyStream], DecreaseNrTasks);
    assert [DestroyStream] + [] == [DestroyStream];
    assert [DecreaseNrTasks] + [DestroyStream] == [DecreaseNrTasks, DestroyStream];
  }

  lemma BlockStack(h: Handler, g: Shared, env: Env)
    requires CleanupsOk(h) && h.pc.AwaitScopeCgroup?
    ensures var (h', g') := Block(h, g, env); CleanupsOk(h') && Accounts(h, g, h', g')
  {
    if env.result != Ok {
      FailedStack(h, env);
    } else if !SetWorks(g, env.cg, env.setOk) {
      ErrorStack(h, h.clientError);
    } else {
      BlockWorks(h, g, env.cg);
    }
  }

  lemma BlockWorks(h: Handler, g: Shared, cg: nat)
    requires CleanupsOk(h) && h.pc.AwaitScopeCgroup?
    ensures var h' := Push(h.(cg := Some(cg)), ClearRateLimit(cg)).(pc := AwaitRead);
            CleanupsOk(h') && Accounts(h, g, h', g.(limits := g.limits[cg := ALL_DROP]))
  {
    assert forall c :: c in h.cleanups ==> !c.ClearRateLimit?;
    PushStacked(h.cleanups, ClearRateLimit(cg));
    assert ClearRateLimit(cg) in [ClearRateLimit(cg)] + h.cleanups;
  }

  lemma EnforceStack(h: Handler, g: Shared, env: Env)
    requires CleanupsOk(h) && h.pc.AwaitRead?
    ensures var (h', g') := Enforce(h, g, env); CleanupsOk(h') && Accounts(h, g, h', g')
  {
    if env.result == Interrupted {
      InterruptStack(h, env.sysExit);
    } else if env.result == Error {
      ErrorStack(h, env.timedOut);
    } else if env.reply.None? {
      ErrorStack(h, true);
    } else if !SetWorks(g, h.cg.value, env.setOk) {
      ErrorStack(h, h.clientError);
    } else {
      assert CleanupsOk(h.(requested := env.reply, pc := AwaitStartLog));
    }
  }

  /** Registering two strings to free. */
  lemma PushTwice(h: Handler, g: Shared)
    requires CleanupsOk(h) && h.pc.AwaitScope?
    ensures var h' := Push(Push(h, FreeMemory), FreeMemory); CleanupsOk(h') && Accounts(h, g, h', g) && h'.pc.AwaitScope?
  {
    PushPlain(h, FreeMemory, AwaitScope);
    PushAccounts(h, g, Push(h, FreeMemory), FreeMemory);
    PushPlain(Push(h, FreeMemory), FreeMemory, AwaitScope);
    PushAccounts(Push(h, FreeMemory), g, Push(Push(h, FreeMemory), FreeMemory), FreeMemory);
  }

  /** The scope has started: its two names, and then the pidfd, are registered. */
  lemma ScopeStack(h: Handler, g: Shared, env: Env)
    requires CleanupsOk(h) && h.pc.AwaitScope? && env.result == Ok
    ensures var (h', g') := LookUp(h, g, env); CleanupsOk(h') && Accounts(h, g, h', g')
  {
    var h0 := h.(scope := true);
    PushTwice(h0, g);
    var h2 := Push(Push(h0, FreeMemory), FreeMemory);
    ErrorStack(h2, h2.clientError);
    PushPlain(h2, DestroyPidfd, AwaitScopeCgroup);
    PushAccounts(h2, g, Push(h2, DestroyPidfd).(pc := AwaitScopeCgroup), DestroyPidfd);
  }

  lemma LookUpStack(h: Handler, g: Shared, env: Env)
    requires CleanupsOk(h) && LooksUp(h.pc)
    ensures var (h', g') := LookUp(h, g, env); CleanupsOk(h') && Accounts(h, g, h', g')
  {
    var (h', g') := LookUp(h, g, env);
    if h.pc.AwaitRecursiveLog? {
      ErrorStack(h, true);
    } else if env.result != Ok {
      FailedStack(h, env);
    } else if h.pc.AwaitScope? {
      ScopeStack(h, g, env);
    } else if h.pc.AwaitUnitByPid? {
      PushPlain(h, FreeMemory, AwaitOrigCgroup);
      PushAccounts(h, g, h', FreeMemory);
    } else {
      SameStackOk(h, h');
    }
  }

  lemma ResumeStack(h: Handler, g: Shared, env: Env)
    requires CleanupsOk(h) && !Over(h.pc)
    ensures var (h', g') := Resume(h, g, env); CleanupsOk(h') && Accounts(h, g, h', g')
  {
    if h.pc.Start? {
      AdmitStack(h, g, env);
    } else if LooksUp(h.pc) {
      LookUpStack(h, g, env);
    } else if h.pc.AwaitScopeCgroup? {
      BlockStack(h, g, env);
    } else if h.pc.AwaitRead? {
      EnforceStack(h, g, env);
    } else {
      WindDownStack(h, env);
      SameAccounts(h, g, WindDown(h, env), g.unitName);
    }
  }
}
