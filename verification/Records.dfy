/** The field `waiting_event` of a task's record, which outlives the wait it was written for:
    s_event_set and s_task_cancel_wait clear it for the current task only. An event lives in the
    frame of the function that waits on it, so a recorded event may be looked at only while its
    task is inside that wait. */
module Records {
  import opened Options
  import opened Tasks
  import opened SeqScheduler
  import opened SchedulerInvariant
  import opened SchedulerTraces
  import opened StepLaws
  import SweepOrder = Sweep

  /** Every unfinished task off the processor that has a recorded event is inside the wait on
      that very event. The main task never has one. */
  ghost predicate RecordsLive(s: State) {
    && s.main in s.info && s.info[s.main].waitingOn.None?
    && forall t :: t in s.info && t != s.current ==> RecordLive(s.info[t])
  }

  predicate RecordLive(i: Info) {
    i.closed || i.waitingOn.None? || i.control == InWait(i.waitingOn.value)
  }

  /** The current task yields and still has an event on its record, from a wait that is over. */
  ghost predicate YieldsStale(s: State, step: Step) {
    step.Yield? && s.current in s.info && s.info[s.current].waitingOn.Some?
  }

  /** What a step that is no such yield leaves on the record of the task that took it. */
  lemma OwnRecordLive(s: State, step: Step)
    requires Inv(s) && RecordsLive(s) && Enabled(s, step) && !YieldsStale(s, step)
    ensures s.current in Apply(s, step).info
    ensures Apply(s, step).current != s.current ==> RecordLive(Apply(s, step).info[s.current])
    ensures s.current == s.main ==> Apply(s, step).info[s.current].waitingOn.None?
  {
    StepAdvances(s, step);
    match step
    case Sweep => SweepOrder.SweepIsSwept(s);
    case Wait(e) => LooseIsDetached(Enlist(s, e), {s.current}, s.current);
    case _ =>
  }

  lemma StepLive(s: State, step: Step)
    requires Inv(s) && RecordsLive(s) && Enabled(s, step) && !YieldsStale(s, step)
    ensures RecordsLive(Apply(s, step))
  {
    var s' := Apply(s, step);
    StepAdvances(s, step);
    StepKeys(s, step);
    OwnRecordLive(s, step);
    forall t | t in s'.info && t != s'.current ensures RecordLive(s'.info[t]) {
      if t in s.info && t != s.current {
        StepKeepsInfo(s, step, t);
      }
    }
    if s.main != s.current {
      StepKeepsInfo(s, step, s.main);
    }
  }

  /** Exactly such a yield leaves a stale record behind. */
  lemma StepLiveIff(s: State, step: Step)
    requires Inv(s) && RecordsLive(s) && Enabled(s, step)
    ensures RecordsLive(Apply(s, step)) <==> !YieldsStale(s, step)
  {
    if YieldsStale(s, step) {
      StaleYield(s);
    } else {
      StepLive(s, step);
    }
  }

  lemma StaleYield(s: State)
    requires Inv(s) && RecordsLive(s) && Enabled(s, Yield) && s.info[s.current].waitingOn.Some?
    ensures !RecordsLive(DoYield(s))
  {
    var s' := DoYield(s);
    assert s.active != [] && s'.current == s.active[0] != s.current;
    assert !RecordLive(s'.info[s.current]);
  }

  /** In every run without such a yield. */
  lemma {:induction false} RunLive(states: seq<State>, steps: seq<Step>, i: nat)
    requires IsRun(states, steps) && Inv(states[0]) && RecordsLive(states[0]) && i <= |steps|
    requires forall m :: 0 <= m < i ==> !YieldsStale(states[m], steps[m])
    ensures RecordsLive(states[i])
  {
    if i > 0 {
      RunLive(states, steps, i - 1);
      RunInv(states, steps, i - 1);
      assert StepsAt(states, steps, i - 1);
      StepLive(states[i - 1], steps[i - 1]);
    }
  }

  lemma InitialLive(main: Task)
    ensures RecordsLive(Initial(main))
  {
  }

  /** So the event that s_task_cancel_wait looks at is one its target is waiting on at that moment. */
  lemma CancelSeesLiveEvent(states: seq<State>, steps: seq<Step>, i: nat, t: Task)
    requires IsRun(states, steps) && Inv(states[0]) && RecordsLive(states[0]) && i < |steps|
    requires forall m :: 0 <= m < i ==> !YieldsStale(states[m], steps[m])
    requires steps[i] == Cancel(t)
    ensures t in states[i].info
    ensures states[i].info[t].waitingOn.Some? ==> states[i].info[t].control == InWait(states[i].info[t].waitingOn.value)
  {
    RunLive(states, steps, i);
    assert StepsAt(states, steps, i);
  }

  // ----- tasks that have ended

  /** A task that has ended has no event on record: s_event_set on its join event cleared it. */
  ghost predicate EndedBlank(s: State) {
    forall t :: t in s.info && s.info[t].closed ==> s.info[t].waitingOn == None
  }

  lemma StepEnded(s: State, step: Step)
    requires Inv(s) && EndedBlank(s) && Enabled(s, step)
    ensures EndedBlank(Apply(s, step))
  {
    var s' := Apply(s, step);
    StepKeys(s, step);
    StepOwnRecord(s, step);
    forall t | t in s'.info && s'.info[t].closed ensures s'.info[t].waitingOn == None {
      if t in s.info && t != s.current {
        StepKeepsInfo(s, step, t);
      } else if t !in s.info {
        CreateRecord(s, t);
      }
    }
  }

  /** In every run: so even an interrupt of a client that has ended and is not reaped yet looks at
      no event. */
  lemma {:induction false} RunEnded(states: seq<State>, steps: seq<Step>, i: nat)
    requires IsRun(states, steps) && Inv(states[0]) && EndedBlank(states[0]) && i <= |steps|
    ensures EndedBlank(states[i])
  {
    if i > 0 {
      RunEnded(states, steps, i - 1);
      RunInv(states, steps, i - 1);
      assert StepsAt(states, steps, i - 1);
      StepEnded(states[i - 1], steps[i - 1]);
    }
  }
}
