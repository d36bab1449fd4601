/** What every step of the scheduler does to each part of its state, said without the operations
    that do it: the records, the queues and the list of events. Together with `StepAdvances`, for
    the ready queue and the current task, and `StepKeepsInfo`, for the records of the others, this
    is the whole next state. */
module StepLaws {
  import opened Options
  import opened Seqs
  import opened Tasks
  import opened SeqScheduler
  import opened SchedulerInvariant
  import opened SchedulerTraces
  import SweepOrder = Sweep

  // ----- the record of the task that takes the step

  /** The record a task has after a step of its own. s_event_set, s_task_cancel_wait and the
      sweep clear its event; a wait writes it; the flag is cleared when it leaves the processor in
      a wait or a yield or ends, and when a wait or a yield returns, but not by the main loop. */
  ghost function OwnAfter(s: State, step: Step): Info
    requires s.current in s.info
  {
    var i := s.info[s.current];
    match step
    case InitEvent(_) => i
    case Create(_) => i
    case Set(_) => Info(None, i.cancelled, i.closed, i.control)
    case Cancel(_) => Info(None, i.cancelled, i.closed, i.control)
    case Sweep => if s.waitedOn == [] then i else Info(None, i.cancelled, i.closed, i.control)
    case Wait(e) => Info(Some(e), false, false, InWait(e))
    case Yield => Info(i.waitingOn, false, false, InYield)
    case Loop => Info(i.waitingOn, i.cancelled, false, InLoop)
    case Finish => Info(None, false, true, Finished)
    case Resume => Info(i.waitingOn, i.cancelled && !i.control.InWait? && !i.control.InYield?, i.closed, Running)
  }

  lemma StepOwnRecord(s: State, step: Step)
    requires Inv(s) && Enabled(s, step)
    ensures s.current in Apply(s, step).info && Apply(s, step).info[s.current] == OwnAfter(s, step)
  {
    match step
    case Sweep => SweptRecord(s);
    case Wait(e) => LooseIsDetached(Enlist(s, e), {s.current}, s.current);
    case _ =>
  }

  lemma SweptRecord(s: State)
    requires Inv(s) && Enabled(s, Step.Sweep)
    ensures s.current in DoSweep(s).info && DoSweep(s).info[s.current] == OwnAfter(s, Step.Sweep)
  {
    SweepOrder.SweepIsSwept(s);
    SweepOrder.OrderIsParked(s, s.waitedOn);
    if s.waitedOn != [] {
      var e := s.waitedOn[0];
      assert s.waiters[e] != [] && s.waiters[e][0] in s.waiters[e];
      assert s.waiters[e][0] in SweepOrder.InOrder(s.waiters, s.waitedOn);
    }
  }

  /** A created task has a blank record and nobody waits for it. */
  lemma CreateRecord(s: State, t: Task)
    requires Inv(s) && Enabled(s, Step.Create(t))
    ensures var s' := Apply(s, Step.Create(t));
            && t in s'.info && s'.info[t] == Info(None, false, false, Fresh)
            && t.joinEvent in s'.waiters && s'.waiters[t.joinEvent] == []
  {
  }

  // ----- the queues

  /** The queue of `e` after a step. */
  ghost function QueueAfter(s: State, step: Step, e: Event): seq<Task>
    requires e in s.waiters
  {
    var q := s.waiters[e];
    match step
    case Set(f) => if f == e then [] else q
    case Finish => if s.current.joinEvent == e then [] else q
    case Cancel(t) => Without(q, t)
    case Sweep => []
    case Wait(f) => if f == e then q + [s.current] else q
    case _ => q
  }

  /** Every queue of `s` is as the law says in `s'`. */
  ghost predicate QueuesFollow(s: State, step: Step, s': State) {
    var follow := forall e :: e in s.waiters ==> e in s'.waiters && s'.waiters[e] == QueueAfter(s, step, e);
    follow
  }

  lemma CancelQueues(s: State, t: Task)
    requires Enabled(s, Step.Cancel(t))
    ensures DoCancel(s, t).waiters.Keys == s.waiters.Keys && QueuesFollow(s, Step.Cancel(t), DoCancel(s, t))
  {
  }

  lemma WaitQueues(s: State, e: Event)
    requires Inv(s) && Enabled(s, Step.Wait(e))
    ensures DoWait(s, e).waiters.Keys == s.waiters.Keys && QueuesFollow(s, Step.Wait(e), DoWait(s, e))
  {
    LooseIsDetached(Enlist(s, e), {s.current}, s.current);
  }

  lemma SetQueues(s: State, e: Event)
    requires Enabled(s, Step.Set(e))
    ensures DoSet(s, e).waiters == s.waiters[e := []]
  {
  }

  lemma FinishQueues(s: State)
    requires Enabled(s, Step.Finish)
    ensures DoFinish(s).waiters == s.waiters[s.current.joinEvent := []]
  {
  }

  lemma StepQueues(s: State, step: Step)
    requires Inv(s) && Enabled(s, step)
    ensures Apply(s, step).waiters.Keys == s.waiters.Keys
              + (if step.InitEvent? then {step.event} else if step.Create? then {step.task.joinEvent} else {})
    ensures QueuesFollow(s, step, Apply(s, step))
  {
    match step
    case Sweep => SweepOrder.SweepIsSwept(s);
    case Wait(e) => WaitQueues(s, e);
    case Cancel(t) => CancelQueues(s, t);
    case Set(e) => SetQueues(s, e);
    case Finish => FinishQueues(s);
    case _ =>
  }

  // ----- the list of events

  /** The waited-on events after a step, oldest first. */
  ghost function ListAfter(s: State, step: Step): seq<Event>
    requires Enabled(s, step)
  {
    match step
    case Set(e) => Without(s.waitedOn, e)
    case Finish => Without(s.waitedOn, s.current.joinEvent)
    case Sweep => []
    case Wait(e) => if s.waiters[e] == [] then s.waitedOn + [e] else s.waitedOn
    case Cancel(t) =>
      (match s.info[t].waitingOn
       case None => s.waitedOn
       case Some(e) => if e in s.waiters && s.waiters[e] == [t] then Without(s.waitedOn, e) else s.waitedOn)
    case _ => s.waitedOn
  }

  lemma StepLists(s: State, step: Step)
    requires Inv(s) && Enabled(s, step)
    ensures Apply(s, step).waitedOn == ListAfter(s, step)
  {
    match step
    case Sweep => SweepOrder.SweepIsSwept(s);
    case Wait(e) => LooseIsDetached(Enlist(s, e), {s.current}, s.current);
    case Cancel(t) => CancelLists(s, t);
    case _ =>
  }

  lemma CancelLists(s: State, t: Task)
    requires Inv(s) && Enabled(s, Step.Cancel(t))
    ensures DoCancel(s, t).waitedOn == ListAfter(s, Step.Cancel(t))
  {
    assert IsSomewhere(s.active, s.waiters, s.info[t], {s.current}, t);
    if s.info[t].waitingOn.Some? {
      var q := s.waiters[s.info[t].waitingOn.value];
      if t in q {
        WithoutEmpty(q, t);
      }
    }
  }

  /** Leaving out one of them empties a queue without repetitions exactly if there was no other. */
  lemma WithoutEmpty(q: seq<Task>, t: Task)
    requires Distinct(q) && t in q
    ensures Without(q, t) == [] <==> q == [t]
  {
    if Without(q, t) == [] {
      forall i | 0 <= i < |q| ensures q[i] == t {
        assert q[i] in q;
      }
    }
  }

  // ----- the whole next state

  /** `s'` is what the laws say of the state after `step`. */
  ghost predicate Follows(s: State, step: Step, s': State)
    requires Enabled(s, step)
  {
    && Advances(s, step, s')
    && s'.info.Keys == s.info.Keys + (if step.Create? then {step.task} else {})
    && (forall t :: t in s.info && t != s.current ==>
          s'.info[t] == if Cancels(s, step, t) then s.info[t].(cancelled := true) else s.info[t])
    && s'.info[s.current] == OwnAfter(s, step)
    && (step.Create? ==> s'.info[step.task] == Info(None, false, false, Fresh))
    && s'.waiters.Keys == s.waiters.Keys
         + (if step.InitEvent? then {step.event} else if step.Create? then {step.task.joinEvent} else {})
    && (forall e :: e in s.waiters ==> s'.waiters[e] == QueueAfter(s, step, e))
    && (forall e :: e in s'.waiters && e !in s.waiters ==> s'.waiters[e] == [])
    && s'.waitedOn == ListAfter(s, step)
  }

  lemma StepFollows(s: State, step: Step)
    requires Inv(s) && Enabled(s, step)
    ensures Follows(s, step, Apply(s, step))
  {
    StepAdvances(s, step);
    StepKeys(s, step);
    StepOwnRecord(s, step);
    StepQueues(s, step);
    StepLists(s, step);
    NewQueues(s, step);
    forall t | t in s.info && t != s.current
      ensures t in Apply(s, step).info
      ensures Apply(s, step).info[t] == if Cancels(s, step, t) then s.info[t].(cancelled := true) else s.info[t]
    {
      StepKeepsInfo(s, step, t);
    }
  }

  lemma NewQueues(s: State, step: Step)
    requires Inv(s) && Enabled(s, step)
    ensures var s' := Apply(s, step); forall e :: e in s'.waiters && e !in s.waiters ==> s'.waiters[e] == []
  {
    StepQueues(s, step);
  }

  /** The laws leave no choice: they hold of one state only. */
  lemma FollowsOnlyApply(s: State, step: Step, s': State)
    requires Inv(s) && Enabled(s, step) && Follows(s, step, s')
    ensures s' == Apply(s, step)
  {
    StepFollows(s, step);
    SameFollowing(s, step, s', Apply(s, step));
  }

  lemma SameFollowing(s: State, step: Step, a: State, b: State)
    requires Enabled(s, step) && Follows(s, step, a) && Follows(s, step, b)
    ensures a == b
  {
    assert a.info == b.info;
    assert a.waiters == b.waiters;
  }
}
