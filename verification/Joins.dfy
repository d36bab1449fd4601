/** s_task_join: it waits on the join event of a task that has not finished, and nobody but the
    end of that task sets this event. */
module Joins {
  import opened Tasks
  import opened SeqScheduler
  import opened SchedulerInvariant
  import opened SchedulerTraces
  import SweepOrder = Sweep

  /** No two tasks have the same join event. */
  ghost predicate JoinsApart(s: State) {
    forall t, u :: t in s.info && u in s.info && t.joinEvent == u.joinEvent ==> t == u
  }

  /** Nobody is left waiting for a task that has finished. */
  ghost predicate NobodyStranded(s: State) {
    forall u :: u in s.info && s.info[u].closed && u.joinEvent in s.waiters ==> s.waiters[u.joinEvent] == []
  }

  /** Join events are used as s_task_join and s_task_context_entry use them: a wait comes after
      the test that the task has not finished, and only its end sets the event. */
  ghost predicate UsesJoins(s: State, step: Step) {
    forall u :: u in s.info ==> step != Set(u.joinEvent) && (step == Wait(u.joinEvent) ==> !s.info[u].closed)
  }

  lemma StepApart(s: State, step: Step)
    requires Inv(s) && Enabled(s, step) && JoinsApart(s)
    ensures JoinsApart(Apply(s, step))
  {
    StepKeys(s, step);
    forall t | t in s.info ensures t.joinEvent in s.waiters {
      assert IsSomewhere(s.active, s.waiters, s.info[t], {s.current}, t);
    }
  }

  /** A queue that is empty stays so, unless somebody waits on that very event. */
  lemma StepKeepsEmpty(s: State, step: Step, e: Event)
    requires Inv(s) && Enabled(s, step) && e in s.waiters && s.waiters[e] == [] && step != Wait(e)
    ensures e in Apply(s, step).waiters && Apply(s, step).waiters[e] == []
  {
    match step
    case Sweep => SweepOrder.SweepIsSwept(s);
    case Wait(f) => LooseIsDetached(Enlist(s, f), {s.current}, s.current);
    case _ =>
  }

  lemma StepKeepsClosed(s: State, step: Step, u: Task)
    requires Inv(s) && Enabled(s, step) && u in s.info && s.info[u].closed
    ensures u in Apply(s, step).info && Apply(s, step).info[u].closed
  {
    StepKeepsInfo(s, step, u);
  }

  lemma FinishEmpties(s: State)
    requires Inv(s) && Enabled(s, Finish)
    ensures var s' := DoFinish(s); s.current in s'.info && s'.info[s.current].closed
    ensures var e := s.current.joinEvent; e in DoFinish(s).waiters && DoFinish(s).waiters[e] == []
  {
  }

  lemma OwnRecord(s: State, step: Step)
    requires Inv(s) && Enabled(s, step) && !step.Finish?
    ensures s.current in Apply(s, step).info && !Apply(s, step).info[s.current].closed
  {
    match step
    case Sweep => SweepOrder.SweepIsSwept(s);
    case Wait(f) => LooseIsDetached(Enlist(s, f), {s.current}, s.current);
    case _ =>
  }

  lemma StepCloses(s: State, step: Step, u: Task)
    requires Inv(s) && Enabled(s, step) && u in Apply(s, step).info && Apply(s, step).info[u].closed
    requires u !in s.info || !s.info[u].closed
    ensures step.Finish? && u == s.current
  {
    StepKeys(s, step);
    if !step.Finish? {
      OwnRecord(s, step);
    }
    if u in s.info && u != s.current {
      StepKeepsInfo(s, step, u);
    }
  }

  lemma StepStrands(s: State, step: Step)
    requires Inv(s) && Enabled(s, step) && NobodyStranded(s) && UsesJoins(s, step)
    ensures NobodyStranded(Apply(s, step))
  {
    var s' := Apply(s, step);
    forall u | u in s'.info && s'.info[u].closed && u.joinEvent in s'.waiters ensures s'.waiters[u.joinEvent] == [] {
      if u in s.info && s.info[u].closed {
        assert IsSomewhere(s.active, s.waiters, s.info[u], {s.current}, u);
        StepKeepsEmpty(s, step, u.joinEvent);
      } else {
        StepCloses(s, step, u);
        FinishEmpties(s);
      }
    }
  }

  /** Whenever join events are used like that, everybody who waits for a task waits for one
      that has not finished: no wake-up is lost. */
  lemma {:induction false} NoLostJoin(states: seq<State>, steps: seq<Step>, i: nat)
    requires IsRun(states, steps) && Inv(states[0]) && JoinsApart(states[0]) && NobodyStranded(states[0])
    requires forall m :: 0 <= m < |steps| ==> UsesJoins(states[m], steps[m])
    requires i <= |steps|
    ensures JoinsApart(states[i]) && NobodyStranded(states[i])
  {
    if i > 0 {
      NoLostJoin(states, steps, i - 1);
      RunInv(states, steps, i - 1);
      assert StepsAt(states, steps, i - 1);
      StepApart(states[i - 1], steps[i - 1]);
      StepStrands(states[i - 1], steps[i - 1]);
    }
  }

  lemma {:induction false} StaysClosed(states: seq<State>, steps: seq<Step>, i: nat, k: nat, u: Task)
    requires IsRun(states, steps) && Inv(states[0]) && i <= k <= |steps|
    requires u in states[i].info && states[i].info[u].closed
    ensures u in states[k].info && states[k].info[u].closed
  {
    if k > i {
      StaysClosed(states, steps, i, k - 1, u);
      RunInv(states, steps, k - 1);
      assert StepsAt(states, steps, k - 1);
      StepKeepsClosed(states[k - 1], steps[k - 1], u);
    }
  }

  lemma {:induction false} StaysKnown(states: seq<State>, steps: seq<Step>, i: nat, k: nat, u: Task)
    requires IsRun(states, steps) && Inv(states[0]) && i <= k <= |steps| && u in states[i].info
    ensures u in states[k].info
  {
    if k > i {
      StaysKnown(states, steps, i, k - 1, u);
      RunInv(states, steps, k - 1);
      assert StepsAt(states, steps, k - 1);
      StepKeys(states[k - 1], steps[k - 1]);
    }
  }

  lemma {:induction false} SetIsFinish(states: seq<State>, steps: seq<Step>, m: nat, u: Task)
    requires IsRun(states, steps) && m < |steps| && Inv(states[m]) && u in states[m].info
    requires JoinsApart(states[m]) && UsesJoins(states[m], steps[m]) && Sets(states[m], steps[m], u.joinEvent)
    ensures u in states[m + 1].info && states[m + 1].info[u].closed
  {
    assert StepsAt(states, steps, m);
    FinishEmpties(states[m]);
  }

  /** A run from a good state in which join events are used like that, as one fact. */
  ghost predicate Joinable(states: seq<State>, steps: seq<Step>) {
    var joinable := && IsRun(states, steps) && Inv(states[0]) && JoinsApart(states[0]) && NobodyStranded(states[0])
                    && forall m :: 0 <= m < |steps| ==> UsesJoins(states[m], steps[m]);
    joinable
  }

  /** When the wait inside s_task_join is over, the call returns -1 exactly if the caller was
      cancelled meanwhile; otherwise the task it waited for has finished, and the loop ends. */
  lemma JoinReturns(states: seq<State>, steps: seq<Step>, i: nat, j: nat, t: Task, u: Task)
    requires Joinable(states, steps) && i < j <= |steps| < |states| && steps[i] == Wait(u.joinEvent) && u in states[i].info
    requires states[i].current == t && states[j].current == t
    requires forall m :: i < m < j ==> states[m].current != t
    ensures t in states[j].info && u in states[j].info
    ensures WaitResult(states[j]) == -1 <==> CancelledWithin(states, steps, i, j, t)
    ensures WaitResult(states[j]) == 0 ==> states[j].info[u].closed
  {
    WaitReturns(states, steps, i, j, t, u.joinEvent);
    StaysKnown(states, steps, i, j, u);
    if WaitResult(states[j]) == 0 {
      var m :| i < m < j && Sets(states[m], steps[m], u.joinEvent);
      RunInv(states, steps, m);
      NoLostJoin(states, steps, m);
      StaysKnown(states, steps, i, m, u);
      SetIsFinish(states, steps, m, u);
      StaysClosed(states, steps, m + 1, j, u);
    }
  }

  // ----- the loop

  /** One turn of the loop: `t` waits at step `i` and completes the wait at step `k`. */
  ghost predicate Turn(states: seq<State>, steps: seq<Step>, i: nat, k: nat, t: Task, u: Task)
    requires k < |steps| < |states|
  {
    && i < k && steps[i] == Wait(u.joinEvent) && steps[k] == Resume
    && t in states[k].info && states[i].current == t && states[k].current == t
    && forall m :: i < m < k ==> states[m].current != t
  }

  /** What `t` does from step `i` up to step `j` is s_task_join for `u`, and it returns `ret`. */
  ghost predicate IsJoin(states: seq<State>, steps: seq<Step>, i: nat, j: nat, t: Task, u: Task, ret: int)
    requires i <= j <= |steps| < |states|
    decreases j - i
  {
    && states[i].current == t && t in states[i].info && u in states[i].info
    && if states[i].info[u].closed then j == i && ret == 0
       else exists k :: && i < k < j && Turn(states, steps, i, k, t, u)
                        && if WaitResult(states[k]) != 0 then j == k + 1 && ret == WaitResult(states[k])
                           else IsJoin(states, steps, k + 1, j, t, u, ret)
  }

  lemma TurnEnds(states: seq<State>, steps: seq<Step>, i: nat, k: nat, t: Task, u: Task)
    requires Joinable(states, steps) && k < |steps| < |states| && Turn(states, steps, i, k, t, u) && u in states[i].info
    ensures t in states[k].info && u in states[k + 1].info
    ensures WaitResult(states[k]) == -1 <==> CancelledWithin(states, steps, i, k, t)
    ensures WaitResult(states[k]) == 0 ==> states[k + 1].info[u].closed
  {
    JoinReturns(states, steps, i, k, t, u);
    StaysKnown(states, steps, i, k + 1, u);
    if WaitResult(states[k]) == 0 {
      StaysClosed(states, steps, k, k + 1, u);
    }
  }

  /** s_task_join returns 0 at once if the task has finished. Otherwise it waits exactly once, and
      returns -1 exactly if its caller was cancelled during the wait; when it returns 0 the task
      has finished. */
  lemma JoinWaitsOnce(states: seq<State>, steps: seq<Step>, i: nat, j: nat, t: Task, u: Task, ret: int)
    requires Joinable(states, steps) && i <= j <= |steps| < |states| && IsJoin(states, steps, i, j, t, u, ret)
    ensures ret == 0 || ret == -1
    ensures u in states[j].info && (ret == 0 ==> states[j].info[u].closed)
    ensures if states[i].info[u].closed then i == j && ret == 0
            else i + 1 < j && Turn(states, steps, i, j - 1, t, u)
                 && (ret == -1 <==> CancelledWithin(states, steps, i, j - 1, t))
  {
    if !states[i].info[u].closed {
      var k :| && i < k < j && Turn(states, steps, i, k, t, u)
               && if WaitResult(states[k]) != 0 then j == k + 1 && ret == WaitResult(states[k])
                  else IsJoin(states, steps, k + 1, j, t, u, ret);
      TurnEnds(states, steps, i, k, t, u);
    }
  }
}
