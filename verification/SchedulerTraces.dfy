/** Properties of whole runs: what s_event_wait returns, and the order of a main-loop pass. */
module SchedulerTraces {
  import opened Seqs
  import opened Tasks
  import opened SeqScheduler
  import opened SchedulerInvariant
  import SweepOrder = Sweep

  // ----- the return value of s_event_wait

  ghost predicate Cancels(s: State, step: Step, t: Task) {
    step == Cancel(t) || (step.Sweep? && t in SweepOrder.InOrder(s.waiters, s.waitedOn))
  }

  ghost predicate Sets(s: State, step: Step, e: Event) {
    step == Set(e) || (step.Finish? && s.current.joinEvent == e)
  }

  /** No step of another task touches a task's record, except to cancel it. */
  lemma StepKeepsInfo(s: State, step: Step, t: Task)
    requires Inv(s) && Enabled(s, step) && t in s.info && t != s.current
    ensures t in Apply(s, step).info
    ensures Apply(s, step).info[t] == if Cancels(s, step, t) then s.info[t].(cancelled := true) else s.info[t]
  {
    if step.Sweep? {
      SweepOrder.SweepIsSwept(s);
    }
  }

  /** A task leaves the queue it is parked in only by cancellation or by that event being set. */
  lemma StepKeepsParked(s: State, step: Step, t: Task, e: Event)
    requires Inv(s) && Enabled(s, step) && e in s.waiters && t in s.waiters[e]
    requires !Cancels(s, step, t) && !Sets(s, step, e)
    ensures var s' := Apply(s, step); e in s'.waiters && t in s'.waiters[e]
  {
    assert IsParked(s.info, t, e);
    match step
    case Sweep =>
      SweepOrder.SweepIsSwept(s);
      SweepOrder.OrderIsParked(s, s.waitedOn);
    case Wait(f) =>
      LooseIsDetached(Enlist(s, f), {s.current}, s.current);
    case Cancel(u) =>
    case _ =>
  }

  ghost predicate CancelledWithin(states: seq<State>, steps: seq<Step>, i: nat, k: nat, t: Task)
    requires |states| > |steps| >= k
  {
    exists m :: i < m < k && Cancels(states[m], steps[m], t)
  }

  ghost predicate SetWithin(states: seq<State>, steps: seq<Step>, i: nat, k: nat, e: Event)
    requires |states| > |steps| >= k
  {
    exists m :: i < m < k && Sets(states[m], steps[m], e)
  }

  /** What holds of a task between its wait, at step `i`, and its return to the processor. */
  ghost predicate Pending(states: seq<State>, steps: seq<Step>, i: nat, k: nat, t: Task, e: Event)
    requires |states| > |steps| >= k
  {
    var s := states[k];
    && t in s.info && s.info[t].control == InWait(e)
    && (s.info[t].cancelled <==> CancelledWithin(states, steps, i, k, t))
    && (|| (e in s.waiters && t in s.waiters[e])
        || CancelledWithin(states, steps, i, k, t)
        || SetWithin(states, steps, i, k, e))
  }

  lemma WaitStartsPending(states: seq<State>, steps: seq<Step>, i: nat, e: Event)
    requires IsRun(states, steps) && i < |steps| && Inv(states[i]) && steps[i] == Wait(e)
    ensures Pending(states, steps, i, i + 1, states[i].current, e)
  {
    var s := states[i];
    assert StepsAt(states, steps, i);
  }

  lemma PendingStep(states: seq<State>, steps: seq<Step>, i: nat, k: nat, t: Task, e: Event)
    requires IsRun(states, steps) && i < k < |steps| && Inv(states[k])
    requires Pending(states, steps, i, k, t, e) && states[k].current != t
    ensures Pending(states, steps, i, k + 1, t, e)
  {
    var s, step := states[k], steps[k];
    assert StepsAt(states, steps, k);
    StepKeepsInfo(s, step, t);
    if e in s.waiters && t in s.waiters[e] && !Cancels(s, step, t) && !Sets(s, step, e) {
      StepKeepsParked(s, step, t, e);
    }
  }

  lemma StaysPending(states: seq<State>, steps: seq<Step>, i: nat, j: nat, t: Task, e: Event)
    requires IsRun(states, steps) && Inv(states[0]) && i < j <= |steps|
    requires steps[i] == Wait(e) && states[i].current == t
    requires forall m :: i < m < j ==> states[m].current != t
    ensures Pending(states, steps, i, j, t, e)
  {
    RunInv(states, steps, i);
    WaitStartsPending(states, steps, i, e);
    for k := i + 1 to j
      invariant Pending(states, steps, i, k, t, e)
    {
      RunInv(states, steps, k);
      PendingStep(states, steps, i, k, t, e);
    }
  }

  /** When the task that waited at step `i` is back on the processor at step `j`, it is still
      inside that call; the call returns -1 exactly if the task was cancelled since it parked,
      and 0 only if that very event was set since. */
  lemma WaitReturns(states: seq<State>, steps: seq<Step>, i: nat, j: nat, t: Task, e: Event)
    requires IsRun(states, steps) && Inv(states[0]) && i < j <= |steps|
    requires steps[i] == Wait(e) && states[i].current == t && states[j].current == t
    requires forall m :: i < m < j ==> states[m].current != t
    ensures t in states[j].info && states[j].info[t].control == InWait(e)
    ensures WaitResult(states[j]) == -1 <==> CancelledWithin(states, steps, i, j, t)
    ensures WaitResult(states[j]) == 0 ==> SetWithin(states, steps, i, j, e)
  {
    StaysPending(states, steps, i, j, t, e);
    RunInv(states, steps, j);
  }

  // ----- one pass of the main loop

  /** The steps that end in s_task_call_next. */
  predicate Switches(step: Step) {
    step.Wait? || step.Yield? || step.Loop? || step.Finish?
  }

  /** The tasks a step puts at the end of the ready queue, in order. */
  function ReadyBy(s: State, step: Step): seq<Task> {
    match step
    case Create(t) => [t]
    case Cancel(t) => [t]
    case Set(e) => if e in s.waiters then s.waiters[e] else []
    case Finish => if s.current.joinEvent in s.waiters then s.waiters[s.current.joinEvent] else []
    case Sweep => SweepOrder.InOrder(s.waiters, s.waitedOn)
    case Yield => [s.current]
    case Loop => [s.current]
    case _ => []
  }

  /** `q` without the task that a step takes out of the queue it is in. */
  function Kept(q: seq<Task>, step: Step): seq<Task> {
    if step.Cancel? then Without(q, step.task) else q
  }

  /** How a step changes the ready queue and the current task. */
  ghost predicate Advances(s: State, step: Step, s': State) {
    var q := Kept(s.active, step) + ReadyBy(s, step);
    && s'.main == s.main
    && if Switches(step) then q != [] && s'.current == q[0] && s'.active == q[1..]
       else s'.current == s.current && s'.active == q
  }

  lemma CancelAdvances(s: State, t: Task)
    requires Enabled(s, Cancel(t))
    ensures Advances(s, Cancel(t), DoCancel(s, t))
  {
  }

  lemma SetAdvances(s: State, e: Event)
    requires Enabled(s, Set(e))
    ensures Advances(s, Set(e), DoSet(s, e))
  {
  }

  lemma WaitAdvances(s: State, e: Event)
    requires Inv(s) && Enabled(s, Wait(e))
    ensures Advances(s, Wait(e), DoWait(s, e))
  {
    ParkKeepsActive(s, e);
  }

  lemma FinishAdvances(s: State)
    requires Inv(s) && Enabled(s, Finish)
    ensures Advances(s, Finish, DoFinish(s))
  {
    assert Close(s).active == s.active + s.waiters[s.current.joinEvent];
  }

  lemma RequeueAdvances(s: State, step: Step)
    requires Enabled(s, step) && (step.Yield? || step.Loop?)
    ensures Advances(s, step, Apply(s, step))
  {
  }

  lemma StepAdvances(s: State, step: Step)
    requires Inv(s) && Enabled(s, step)
    ensures Advances(s, step, Apply(s, step))
  {
    match step
    case Cancel(t) => CancelAdvances(s, t);
    case Set(e) => SetAdvances(s, e);
    case Sweep => SweepOrder.SweepIsSwept(s);
    case Wait(e) => WaitAdvances(s, e);
    case Finish => FinishAdvances(s);
    case Yield => RequeueAdvances(s, step);
    case Loop => RequeueAdvances(s, step);
    case _ =>
  }

  lemma ParkKeepsActive(s: State, e: Event)
    requires Inv(s) && e in s.waiters
    ensures Park(s, e).active == s.active
  {
    LooseIsDetached(Enlist(s, e), {s.current}, s.current);
  }

  /** The tasks switched to by the steps from `i` up to `k`, in order. */
  function Ran(states: seq<State>, steps: seq<Step>, i: nat, k: nat): seq<Task>
    requires i <= k <= |steps| < |states|
  {
    if k == i then [] else
      Ran(states, steps, i, k - 1) + (if Switches(steps[k - 1]) then [states[k].current] else [])
  }

  /** The tasks made ready by the steps from `i` up to `k`, by the time each was last put at
      the end of the queue. */
  function Readied(states: seq<State>, steps: seq<Step>, i: nat, k: nat): seq<Task>
    requires i <= k <= |steps| < |states|
  {
    if k == i then [] else
      Kept(Readied(states, steps, i, k - 1), steps[k - 1]) + ReadyBy(states[k - 1], steps[k - 1])
  }

  /** The queue that the pass from `i` starts with, less the tasks that were cancelled before
      they had their turn: they are back at the end of the queue. */
  function Planned(states: seq<State>, steps: seq<Step>, i: nat, k: nat): seq<Task>
    requires i < k <= |steps| < |states|
  {
    if k == i + 1 then states[i].active + [states[i].main] else
      var planned := Planned(states, steps, i, k - 1);
      if CutAt(states, steps, i, k - 1) then Without(planned, steps[k - 1].task) else planned
  }

  /** Step `m` cancels a task that has not run since `i`. */
  predicate CutAt(states: seq<State>, steps: seq<Step>, i: nat, m: nat)
    requires i <= m < |steps| < |states|
  {
    steps[m].Cancel? && steps[m].task !in Ran(states, steps, i, m)
  }

  /** Steps `i` up to `k` are one pass: the main task starts it and is not back before `k`.
      Nobody cancels the main task, which has no stack that could be handed to
      s_task_cancel_wait. */
  ghost predicate InPass(states: seq<State>, steps: seq<Step>, i: nat, k: nat) {
    && IsRun(states, steps) && i < k <= |steps| && steps[i].Loop?
    && (forall m :: i < m < k ==> states[m].current != states[m].main && steps[m] != Cancel(states[m].main))
  }

  /** A pass has run `ran` and is to run `left`, which comes before whatever has become ready
      since. */
  ghost predicate Underway(ran: seq<Task>, left: seq<Task>, readied: seq<Task>, s: State) {
    var distinct := Distinct(ran + left);
    && distinct && ran != [] && s.current == ran[|ran| - 1]
    && s.main == (if left == [] then ran[|ran| - 1] else left[|left| - 1])
    && s.active == left + readied
  }

  ghost predicate PassAt(states: seq<State>, steps: seq<Step>, i: nat, k: nat)
    requires i < k <= |steps| < |states|
  {
    var planned, ran := Planned(states, steps, i, k), Ran(states, steps, i, k);
    && |ran| <= |planned| && planned[..|ran|] == ran
    && Underway(ran, planned[|ran|..], Readied(states, steps, i + 1, k), states[k])
  }

  lemma PassStarts(states: seq<State>, steps: seq<Step>, i: nat)
    requires i < |steps| < |states| && steps[i].Loop? && states[i].current == states[i].main
    requires Advances(states[i], steps[i], states[i + 1])
    requires Distinct(states[i].active + [states[i].main])
    ensures PassAt(states, steps, i, i + 1)
  {
    assert Ran(states, steps, i, i) == [] && Readied(states, steps, i + 1, i + 1) == [];
    assert Ran(states, steps, i, i + 1) == [states[i + 1].current];
  }

  lemma LastStays(q: seq<Task>, t: Task)
    requires q != [] && t != q[|q| - 1]
    ensures Without(q, t) != [] && Without(q, t)[|Without(q, t)| - 1] == q[|q| - 1]
  {
    var n := |q| - 1;
    assert q == q[..n] + [q[n]];
    WithoutConcat(q[..n], [q[n]], t);
  }

  /** Taking `t` out of a queue that is `ran` and then `left`. */
  lemma CutQueue(ran: seq<Task>, left: seq<Task>, t: Task)
    requires Distinct(ran + left)
    ensures t in ran ==> Without(left, t) == left
    ensures t !in ran ==> Without(ran + left, t) == ran + Without(left, t)
    ensures Distinct(ran + Without(left, t))
  {
    DistinctConcat(ran, left);
    WithoutConcat(ran, left, t);
    WithoutDistinct(left, t);
    DistinctConcat(ran, Without(left, t));
  }

  lemma PassCancels(ran: seq<Task>, left: seq<Task>, readied: seq<Task>, s: State, t: Task, s': State)
    requires Underway(ran, left, readied, s) && Advances(s, Cancel(t), s')
    requires s.current != s.main && t != s.main
    ensures Underway(ran, Without(left, t), Without(readied, t) + [t], s')
    ensures t in ran ==> Without(left, t) == left
    ensures t !in ran ==> Without(ran + left, t) == ran + Without(left, t)
  {
    CutQueue(ran, left, t);
    LastStays(left, t);
    WithoutConcat(left, readied, t);
  }

  lemma PassSwitches(ran: seq<Task>, left: seq<Task>, readied: seq<Task>, s: State, step: Step, s': State)
    requires Underway(ran, left, readied, s) && Advances(s, step, s')
    requires s.current != s.main && Switches(step)
    ensures left != [] && Underway(ran + [s'.current], left[1..], readied + ReadyBy(s, step), s')
    ensures ran + [s'.current] + left[1..] == ran + left
  {
    var more := readied + ReadyBy(s, step);
    assert s.active + ReadyBy(s, step) == left + more;
    assert (left + more)[1..] == left[1..] + more;
    assert ran + [left[0]] + left[1..] == ran + left;
  }

  lemma PassGoesOn(ran: seq<Task>, left: seq<Task>, readied: seq<Task>, s: State, step: Step, s': State)
    requires Underway(ran, left, readied, s) && Advances(s, step, s') && !step.Cancel? && !Switches(step)
    ensures Underway(ran, left, readied + ReadyBy(s, step), s')
  {
    assert s.active + ReadyBy(s, step) == left + (readied + ReadyBy(s, step));
  }

  lemma PassEnds(ran: seq<Task>, left: seq<Task>, readied: seq<Task>, s: State)
    requires Underway(ran, left, readied, s) && s.current == s.main
    ensures left == []
  {
    DistinctConcat(ran, left);
    assert ran[|ran| - 1] in ran;
  }

  lemma PassStep(states: seq<State>, steps: seq<Step>, i: nat, k: nat)
    requires i < k < |steps| < |states| && PassAt(states, steps, i, k)
    requires states[k].current != states[k].main && steps[k] != Cancel(states[k].main)
    requires Advances(states[k], steps[k], states[k + 1])
    ensures PassAt(states, steps, i, k + 1)
  {
    var planned, ran := Planned(states, steps, i, k), Ran(states, steps, i, k);
    var left, readied := planned[|ran|..], Readied(states, steps, i + 1, k);
    assert planned == ran + left;
    if steps[k].Cancel? {
      PassCancels(ran, left, readied, states[k], steps[k].task, states[k + 1]);
      assert Planned(states, steps, i, k + 1) == ran + Without(left, steps[k].task);
    } else if Switches(steps[k]) {
      PassSwitches(ran, left, readied, states[k], steps[k], states[k + 1]);
      assert planned == ran + [states[k + 1].current] + left[1..];
    } else {
      PassGoesOn(ran, left, readied, states[k], steps[k], states[k + 1]);
    }
  }

  ghost predicate AdvancesAt(states: seq<State>, steps: seq<Step>, k: nat)
    requires k < |steps| < |states|
  {
    Advances(states[k], steps[k], states[k + 1])
  }

  lemma RunAdvances(states: seq<State>, steps: seq<Step>, k: nat)
    requires IsRun(states, steps) && Inv(states[0]) && k < |steps|
    ensures AdvancesAt(states, steps, k)
  {
    RunInv(states, steps, k);
    assert StepsAt(states, steps, k);
    StepAdvances(states[k], steps[k]);
  }

  lemma {:induction false} PassInOrder(states: seq<State>, steps: seq<Step>, i: nat, k: nat)
    requires i < k <= |steps| < |states| && steps[i].Loop? && states[i].current == states[i].main
    requires forall m :: i <= m < k ==> AdvancesAt(states, steps, m)
    requires Distinct(states[i].active + [states[i].main])
    requires forall m :: i < m < k ==> states[m].current != states[m].main && steps[m] != Cancel(states[m].main)
    ensures PassAt(states, steps, i, k)
  {
    if k == i + 1 {
      assert AdvancesAt(states, steps, i);
      PassStarts(states, steps, i);
    } else {
      assert AdvancesAt(states, steps, k - 1);
      PassInOrder(states, steps, i, k - 1);
      PassStep(states, steps, i, k - 1);
    }
  }

  /** A task is planned exactly if it was in the queue and nobody cancelled it before its turn. */
  lemma {:induction false} PlannedIff(states: seq<State>, steps: seq<Step>, i: nat, k: nat, t: Task)
    requires i < k <= |steps| < |states|
    ensures t in Planned(states, steps, i, k) <==>
              && t in states[i].active + [states[i].main]
              && forall m :: i < m < k && CutAt(states, steps, i, m) ==> steps[m].task != t
    decreases k
  {
    if k > i + 1 {
      PlannedIff(states, steps, i, k - 1, t);
      assert CutAt(states, steps, i, k - 1) || !CutAt(states, steps, i, k - 1);
    }
  }

  /** A pass that comes back to the main task has run the tasks that were ready at its start
      and not cancelled before their turn, each once, in order; what became ready meanwhile is
      still queued, in order. */
  lemma RoundRobin(states: seq<State>, steps: seq<Step>, i: nat, j: nat)
    requires InPass(states, steps, i, j) && Inv(states[0]) && states[j].current == states[j].main
    ensures Ran(states, steps, i, j) == Planned(states, steps, i, j)
    ensures Distinct(Planned(states, steps, i, j))
    ensures states[j].active == Readied(states, steps, i + 1, j)
  {
    forall m | i <= m < j ensures AdvancesAt(states, steps, m) {
      RunAdvances(states, steps, m);
    }
    assert StepsAt(states, steps, i);
    RunInv(states, steps, i);
    DistinctConcat(states[i].active, [states[i].main]);
    PassInOrder(states, steps, i, j);
    var planned, ran := Planned(states, steps, i, j), Ran(states, steps, i, j);
    PassEnds(ran, planned[|ran|..], Readied(states, steps, i + 1, j), states[j]);
    assert planned == ran + [];
    DistinctConcat(ran, []);
  }

  /** If nobody is cancelled before their turn, the pass runs the whole queue. */
  lemma {:induction false} NobodyCut(states: seq<State>, steps: seq<Step>, i: nat, k: nat)
    requires i < k <= |steps| < |states|
    requires forall m :: i < m < k ==> !CutAt(states, steps, i, m)
    ensures Planned(states, steps, i, k) == states[i].active + [states[i].main]
    decreases k
  {
    if k > i + 1 {
      NobodyCut(states, steps, i, k - 1);
    }
  }
}
