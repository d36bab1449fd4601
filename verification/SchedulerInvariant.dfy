/** Safety of the scheduler over every run: no task is lost or duplicated, and an event is
    listed exactly while somebody waits on it. */
module SchedulerInvariant {
  import opened Options
  import opened Seqs
  import opened Tasks
  import opened SeqScheduler
  import Sweep

  ghost predicate Inv(s: State) {
    && Placed(s, {s.current})
    && Listed(s)
    && s.main in s.info && (s.main == s.current || s.main in s.active)
  }

  // ----- steps

  /** One stretch of code between two switches, as the current task executes it. */
  datatype Step =
    | InitEvent(event: Event)
    | Create(task: Task)
    | Set(event: Event)
    | Cancel(task: Task)
    | Sweep
    | Wait(event: Event)
    | Yield
    | Loop
    | Finish
    | Resume

  /** What the program keeps to when it calls the scheduler. A switch is followed by the
      completion of the call the new current task was in. Only coroutines wait and finish,
      only the main task runs the main loop, and the loop is left when nothing is ready. A
      task may be cancelled only when it is neither running nor finished. */
  ghost predicate Enabled(s: State, step: Step) {
    s.current in s.info &&
    var c := s.info[s.current].control;
    match step
    case InitEvent(e) => c == Running && e !in s.waiters
    case Create(t) => c == Running && t !in s.info && t.joinEvent !in s.waiters
    case Set(e) => c == Running && e in s.waiters
    case Cancel(t) => c == Running && t in s.info && t != s.current && !s.info[t].closed
    case Sweep => c == Running && forall e :: e in s.waitedOn ==> e in s.waiters
    case Wait(e) => c == Running && e in s.waiters && s.current != s.main
    case Yield => c == Running
    case Loop => (c == Running || c == InLoop) && s.current == s.main && s.active != []
    case Finish => c == Running && s.current != s.main && s.current.joinEvent in s.waiters
    case Resume => c != Running && (c == InLoop ==> s.active == [])
  }

  ghost function Apply(s: State, step: Step): State
    requires Enabled(s, step)
  {
    match step
    case InitEvent(e) => DoInitEvent(s, e)
    case Create(t) => DoCreate(s, t)
    case Set(e) => DoSet(s, e)
    case Cancel(t) => DoCancel(s, t)
    case Sweep => DoSweep(s)
    case Wait(e) => DoWait(s, e)
    case Yield => DoYield(s)
    case Loop => DoLoop(s)
    case Finish => DoFinish(s)
    case Resume => DoResume(s)
  }

  ghost predicate StepsAt(states: seq<State>, steps: seq<Step>, i: nat)
    requires i < |steps| < |states|
  {
    Enabled(states[i], steps[i]) && states[i + 1] == Apply(states[i], steps[i])
  }

  /** `states` is what the system goes through when it takes `steps`. */
  ghost predicate IsRun(states: seq<State>, steps: seq<Step>) {
    && |states| == |steps| + 1
    && forall i {:trigger StepsAt(states, steps, i)} :: 0 <= i < |steps| ==> StepsAt(states, steps, i)
  }

  // ----- each step keeps the invariant

  lemma InitialInv(main: Task)
    ensures Inv(Initial(main))
  {
  }

  lemma InitEventInv(s: State, e: Event)
    requires Inv(s) && e !in s.waiters
    ensures Inv(DoInitEvent(s, e))
  {
  }

  lemma CreatePlaced(s: State, loose: set<Task>, t: Task, i: Info)
    requires Placed(s, loose) && t !in s.info && t.joinEvent in s.waiters && !i.closed && i.waitingOn == None
    ensures Placed(WithInfo(s, t, i), loose + {t})
  {
  }

  lemma CreateInv(s: State, t: Task)
    requires Inv(s) && t !in s.info && t.joinEvent !in s.waiters
    ensures Inv(DoCreate(s, t))
  {
    var s1 := DoInitEvent(s, t.joinEvent);
    InitEventInv(s, t.joinEvent);
    var i := Info(None, false, false, Fresh);
    CreatePlaced(s1, {s.current}, t, i);
    PushActivePlaced(WithInfo(s1, t, i), {s.current} + {t}, t);
    assert {s.current} + {t} - {t} == {s.current};
  }

  lemma ParkPlaced(s: State, e: Event)
    requires Placed(s, {s.current}) && e in s.waiters
    ensures Placed(Park(s, e), {})
  {
    var t := s.current;
    var s1 := Enlist(s, e);
    assert Placed(s1, {t});
    LooseIsDetached(s1, {t}, t);
    var i := s.info[t].(waitingOn := Some(e), cancelled := false, control := InWait(e));
    WithInfoPlaced(s1, {t}, t, i);
    PushWaiterPlaced(WithInfo(s1, t, i), {t}, e, t);
    assert {t} - {t} == {};
  }

  lemma SetPlaced(s: State, loose: set<Task>, e: Event)
    requires Placed(s, loose) && e in s.waiters
    requires s.current in s.info && (s.current in loose || s.info[s.current].closed)
    ensures Placed(DoSet(s, e), loose)
  {
    WakePlaced(s, loose, e);
    var s1 := Wake(s, e);
    WithInfoPlaced(s1, loose, s.current, s1.info[s.current].(waitingOn := None));
  }

  lemma ClosedPlaced(s: State, t: Task)
    requires Placed(s, {t})
    ensures Placed(WithInfo(s, t, s.info[t].(closed := true)), {})
  {
  }

  lemma ClosePlaced(s: State)
    requires Placed(s, {s.current})
    ensures s.current.joinEvent in s.waiters && Placed(Close(s), {})
  {
    var t := s.current;
    assert IsSomewhere(s.active, s.waiters, s.info[t], {t}, t);
    ClosedPlaced(s, t);
    var s1 := WithInfo(s, t, s.info[t].(closed := true));
    SetPlaced(s1, {}, t.joinEvent);
    var s2 := DoSet(s1, t.joinEvent);
    WithInfoPlaced(s2, {}, t, s2.info[t].(cancelled := false, control := Finished));
  }

  lemma RequeuePlaced(s: State, i: Info)
    requires Placed(s, {s.current}) && !i.closed && i.waitingOn == s.info[s.current].waitingOn
    ensures Placed(PushActive(WithInfo(s, s.current, i), s.current), {})
  {
    assert IsSomewhere(s.active, s.waiters, s.info[s.current], {s.current}, s.current);
    WithInfoPlaced(s, {s.current}, s.current, i);
    PushActivePlaced(WithInfo(s, s.current, i), {s.current}, s.current);
    assert {s.current} - {s.current} == {};
  }

  lemma ResumePlaced(s: State)
    requires Placed(s, {s.current})
    ensures Placed(DoResume(s), {s.current})
  {
    assert IsSomewhere(s.active, s.waiters, s.info[s.current], {s.current}, s.current);
    WithInfoPlaced(s, {s.current}, s.current, DoResume(s).info[s.current]);
  }

  // ----- the list of waited-on events

  lemma ParkListed(s: State, e: Event)
    requires Placed(s, {s.current}) && Listed(s) && e in s.waiters
    ensures Listed(Park(s, e))
  {
    var s1 := Enlist(s, e);
    LooseIsDetached(s1, {s.current}, s.current);
    WithoutDistinct(s.waitedOn, e);
    DistinctConcat(Without(s.waitedOn, e), [e]);
    assert forall f :: f in Without(s.waitedOn, e) + [e] <==> f in s.waitedOn || f == e;
  }

  lemma SetListed(s: State, e: Event)
    requires Listed(s) && s.current in s.info && e in s.waiters
    ensures Listed(DoSet(s, e))
  {
    WithoutDistinct(s.waitedOn, e);
  }

  lemma CancelListed(s: State, t: Task)
    requires Placed(s, {s.current}) && Listed(s) && t in s.info && t != s.current && !s.info[t].closed
    ensures Listed(DoCancel(s, t))
  {
    assert IsSomewhere(s.active, s.waiters, s.info[t], {s.current}, t);
    if t in s.active {
      CancelReady(s, t);
    } else {
      var e := s.info[t].waitingOn.value;
      CancelParked(s, t, e);
      WithoutDistinct(s.waitedOn, e);
    }
  }

  // ----- the invariant over runs

  lemma DispatchInv(s: State)
    requires Placed(s, {}) && Listed(s) && s.main in s.info && s.main in s.active
    ensures Inv(Dispatch(s))
  {
    DispatchPlaced(s);
  }

  lemma SetInv(s: State, e: Event)
    requires Inv(s) && e in s.waiters
    ensures Inv(DoSet(s, e))
  {
    SetPlaced(s, {s.current}, e);
    SetListed(s, e);
  }

  lemma CancelInv(s: State, t: Task)
    requires Inv(s) && t in s.info && t != s.current && !s.info[t].closed
    ensures Inv(DoCancel(s, t))
  {
    CancelPlaced(s, t);
    CancelListed(s, t);
    assert t in s.active || t !in s.active;
  }

  lemma WaitInv(s: State, e: Event)
    requires Inv(s) && e in s.waiters && s.current != s.main
    ensures Inv(DoWait(s, e))
  {
    ParkPlaced(s, e);
    ParkListed(s, e);
    DispatchInv(Park(s, e));
  }

  lemma RequeueInv(s: State, i: Info)
    requires Inv(s) && !i.closed && i.waitingOn == s.info[s.current].waitingOn
    ensures Inv(Dispatch(PushActive(WithInfo(s, s.current, i), s.current)))
  {
    RequeuePlaced(s, i);
    DispatchInv(PushActive(WithInfo(s, s.current, i), s.current));
  }

  lemma FinishInv(s: State)
    requires Inv(s) && s.current != s.main && s.current.joinEvent in s.waiters
    ensures Inv(DoFinish(s))
  {
    ClosePlaced(s);
    SetListed(WithInfo(s, s.current, s.info[s.current].(closed := true)), s.current.joinEvent);
    DispatchInv(Close(s));
  }

  lemma StepInv(s: State, step: Step)
    requires Inv(s) && Enabled(s, step)
    ensures Inv(Apply(s, step))
  {
    match step
    case InitEvent(e) => InitEventInv(s, e);
    case Create(t) => CreateInv(s, t);
    case Set(e) => SetInv(s, e);
    case Cancel(t) => CancelInv(s, t);
    case Sweep => Sweep.SweepIsSwept(s);
    case Wait(e) => WaitInv(s, e);
    case Yield => RequeueInv(s, s.info[s.current].(cancelled := false, control := InYield));
    case Loop => RequeueInv(s, s.info[s.current].(control := InLoop));
    case Finish => FinishInv(s);
    case Resume => ResumePlaced(s);
  }

  /** The tasks the scheduler knows after a step. */
  lemma StepKeys(s: State, step: Step)
    requires Inv(s) && Enabled(s, step)
    ensures Apply(s, step).info.Keys == s.info.Keys + (if step.Create? then {step.task} else {})
  {
    if step.Sweep? {
      Sweep.SweepIsSwept(s);
    }
  }

  /** Every state of every run keeps the invariant. */
  lemma {:induction false} RunInv(states: seq<State>, steps: seq<Step>, i: nat)
    requires IsRun(states, steps) && Inv(states[0]) && i <= |steps|
    ensures Inv(states[i])
  {
    if i > 0 {
      RunInv(states, steps, i - 1);
      assert StepsAt(states, steps, i - 1);
      StepInv(states[i - 1], steps[i - 1]);
    }
  }

  // ----- what the invariant says

  /** The places a task can be in, down to its position in a queue. */
  datatype Where = Runs | Ready(i: nat) | Parked(event: Event, i: nat) | Done

  ghost predicate At(s: State, t: Task, w: Where) {
    match w
    case Runs => t == s.current
    case Ready(i) => i < |s.active| && s.active[i] == t
    case Parked(e, i) => e in s.waiters && i < |s.waiters[e]| && s.waiters[e][i] == t
    case Done => t in s.info && s.info[t].closed
  }

  /** No task is lost and none is duplicated. */
  lemma OnePlace(s: State, t: Task) returns (w: Where)
    requires Inv(s) && t in s.info
    ensures At(s, t, w)
    ensures forall v :: At(s, t, v) ==> v == w
  {
    assert IsSomewhere(s.active, s.waiters, s.info[t], {s.current}, t);
    if s.info[t].closed {
      w := Done;
    } else if t == s.current {
      w := Runs;
    } else if t in s.active {
      var i: nat :| i < |s.active| && s.active[i] == t;
      w := Ready(i);
    } else {
      var e := s.info[t].waitingOn.value;
      var i: nat :| i < |s.waiters[e]| && s.waiters[e][i] == t;
      w := Parked(e, i);
    }
    forall v | At(s, t, v) ensures v == w {
      match v
      case Runs =>
      case Ready(i) => assert t in s.active;
      case Parked(e, i) => assert t in s.waiters[e] && IsParked(s.info, t, e);
      case Done =>
    }
  }

  // ----- where the preconditions are exact

  lemma MainNeverParked(s: State, e: Event)
    requires Inv(s) && e in s.waiters
    ensures s.main !in s.waiters[e]
  {
  }

  lemma WaiterIsParked(s: State, e: Event)
    requires s.current in s.info && e in s.waiters
    ensures var s' := DoWait(s, e); s'.main == s.main && e in s'.waiters && s.current in s'.waiters[e]
  {
  }

  /** A wait keeps the invariant exactly when it is not the main task that waits. */
  lemma WaitKeepsInvIff(s: State, e: Event)
    requires Inv(s) && e in s.waiters
    ensures Inv(DoWait(s, e)) <==> s.current != s.main
  {
    if s.current != s.main {
      WaitInv(s, e);
    } else {
      WaiterIsParked(s, e);
      if Inv(DoWait(s, e)) {
        MainNeverParked(DoWait(s, e), e);
      }
    }
  }

  /** The "must has one task to run" exit of s_task_call_next is taken by a wait exactly when
      the main task waits with nothing ready. */
  lemma MustHaveOneTaskIff(s: State, e: Event)
    requires Inv(s) && e in s.waiters
    ensures DoWait(s, e) == Park(s, e) <==> s.current == s.main && s.active == []
  {
    ParkPlaced(s, e);
    LooseIsDetached(Enlist(s, e), {s.current}, s.current);
    assert s.current in Park(s, e).waiters[e];
  }

  /** A cancellation keeps the invariant exactly when its target is neither running nor finished. */
  lemma CancelKeepsInvIff(s: State, t: Task)
    requires Inv(s) && t in s.info
    ensures Inv(DoCancel(s, t)) <==> t != s.current && !s.info[t].closed
  {
    if t != s.current && !s.info[t].closed {
      CancelInv(s, t);
    } else {
      assert t in DoCancel(s, t).active;
    }
  }
}
