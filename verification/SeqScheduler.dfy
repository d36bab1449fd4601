/** The cooperative scheduler over plain sequences: what s_task/s_task.c and
    s_task/s_event.c do to their queues, with no pointers.

    A context switch is a change of `current`. The registers a parked task left behind are
    reduced to `control`, the call it is suspended in.
  */
module SeqScheduler {
  import opened Options
  import opened Seqs
  import opened Tasks

  datatype Control =
    | Fresh                     // created, has not run yet
    | Running
    | InWait(event: Event)      // inside s_event_wait
    | InYield                   // inside s_task_yield
    | InLoop                    // inside s_task_main_loop_once
    | Finished                  // its entry function has returned

  datatype Info = Info(waitingOn: Option<Event>, cancelled: bool, closed: bool, control: Control)

  datatype State = State(
    main: Task,
    current: Task,
    active: seq<Task>,
    waiters: map<Event, seq<Task>>,
    waitedOn: seq<Event>,
    info: map<Task, Info>)

  // ----- moves

  /** s_list_attach to the ready queue. */
  function PushActive(s: State, t: Task): State {
    s.(active := s.active + [t])
  }

  /** s_list_attach to an event's queue. */
  function PushWaiter(s: State, e: Event, t: Task): State
    requires e in s.waiters
  {
    s.(waiters := s.waiters[e := s.waiters[e] + [t]])
  }

  /** s_list_detach of a task's node, whichever ring it is in. */
  function Detached(s: State, t: Task): State {
    s.(active := Without(s.active, t), waiters := QueuesWithout(s.waiters, t))
  }

  function QueuesWithout(waiters: map<Event, seq<Task>>, t: Task): map<Event, seq<Task>> {
    map e | e in waiters :: Without(waiters[e], t)
  }

  function WithInfo(s: State, t: Task, i: Info): State {
    s.(info := s.info[t := i])
  }

  /** s_task_call_next */
  function Dispatch(s: State): State {
    if s.active == [] then s else s.(current := s.active[0], active := s.active[1..])
  }

  /** The current task is about to leave the processor inside call `c`; s_task_next has
      cleared its flag. */
  function Suspend(s: State, c: Control): State
    requires s.current in s.info
  {
    WithInfo(s, s.current, s.info[s.current].(cancelled := false, control := c))
  }

  function ClearWaitingOn(s: State): State
    requires s.current in s.info
  {
    WithInfo(s, s.current, s.info[s.current].(waitingOn := None))
  }

  /** The event joins the waited-on events if this is the first wait on it. */
  function Enlist(s: State, e: Event): State
    requires e in s.waiters
  {
    if s.waiters[e] == [] then s.(waitedOn := Without(s.waitedOn, e) + [e]) else s
  }

  /** The event leaves the waited-on events if nobody waits on it. */
  function Delist(s: State, e: Event): State {
    if e in s.waiters && s.waiters[e] == [] then s.(waitedOn := Without(s.waitedOn, e)) else s
  }

  /** All tasks parked on `e` go to the end of the ready queue. */
  function Wake(s: State, e: Event): State
    requires e in s.waiters
  {
    s.(active := s.active + s.waiters[e], waiters := s.waiters[e := []])
  }

  // ----- operations

  function Initial(main: Task): State {
    State(main, main, [], map[main.joinEvent := []], [], map[main := Info(None, false, false, Running)])
  }

  /** s_event_init */
  function DoInitEvent(s: State, e: Event): State {
    s.(waiters := s.waiters[e := []])
  }

  /** s_task_create */
  function DoCreate(s: State, t: Task): State {
    PushActive(WithInfo(DoInitEvent(s, t.joinEvent), t, Info(None, false, false, Fresh)), t)
  }

  /** s_event_wait up to the switch. */
  function Park(s: State, e: Event): State
    requires s.current in s.info && e in s.waiters
  {
    var t := s.current;
    var s1 := Detached(Enlist(s, e), t);
    PushWaiter(WithInfo(s1, t, s.info[t].(waitingOn := Some(e), cancelled := false, control := InWait(e))), e, t)
  }

  function DoWait(s: State, e: Event): State
    requires s.current in s.info && e in s.waiters
  {
    Dispatch(Park(s, e))
  }

  /** s_event_set. It is the current task whose `waitingOn` is cleared, not a woken one's. */
  function DoSet(s: State, e: Event): State
    requires s.current in s.info && e in s.waiters
  {
    Delist(ClearWaitingOn(Wake(s, e)), e)
  }

  /** s_task_cancel_wait. Again it is the current task whose `waitingOn` is cleared. */
  function DoCancel(s: State, t: Task): (r: State)
    requires s.current in s.info && t in s.info
    ensures r.info.Keys == s.info.Keys && r.waiters.Keys == s.waiters.Keys && r.current == s.current
  {
    var e := s.info[t].waitingOn;
    var s1 := ClearWaitingOn(PushActive(Detached(WithInfo(s, t, s.info[t].(cancelled := true)), t), t));
    if e.Some? then Delist(s1, e.value) else s1
  }

  /** s_task_yield up to the switch, and the switch. */
  function DoYield(s: State): State
    requires s.current in s.info
  {
    Dispatch(PushActive(Suspend(s, InYield), s.current))
  }

  /** One turn of s_task_main_loop_once; unlike a yield it leaves the flag alone. */
  function DoLoop(s: State): State
    requires s.current in s.info
  {
    Dispatch(PushActive(WithInfo(s, s.current, s.info[s.current].(control := InLoop)), s.current))
  }

  /** The end of s_task_context_entry, up to the switch. */
  function Close(s: State): State
    requires s.current in s.info && s.current.joinEvent in s.waiters
  {
    var s1 := WithInfo(s, s.current, s.info[s.current].(closed := true));
    Suspend(DoSet(s1, s.current.joinEvent), Finished)
  }

  function DoFinish(s: State): State
    requires s.current in s.info && s.current.joinEvent in s.waiters
  {
    Dispatch(Close(s))
  }

  /** What a task does first when it is switched to: it completes the call it was in. */
  function DoResume(s: State): State
    requires s.current in s.info
  {
    var i := s.info[s.current];
    WithInfo(s, s.current, if i.control.InWait? || i.control.InYield? then i.(cancelled := false, control := Running)
                           else i.(control := Running))
  }

  /** What s_event_wait returns to the task that resumes in it. */
  function WaitResult(s: State): int
    requires s.current in s.info
  {
    if s.info[s.current].cancelled then -1 else 0
  }

  /** The inner loop of s_event_cancel_dead_waiting_tasks_, over known tasks. */
  function CancelAll(s: State, ts: seq<Task>): (r: State)
    requires s.current in s.info
    ensures r.info.Keys == s.info.Keys && r.waiters.Keys == s.waiters.Keys && r.current == s.current
    decreases |ts|
  {
    if ts == [] || ts[0] !in s.info then s else CancelAll(DoCancel(s, ts[0]), ts[1..])
  }

  /** Its outer loop: `es` are the events still to visit. */
  function SweepEvents(s: State, es: seq<Event>): (r: State)
    requires s.current in s.info && forall e :: e in es ==> e in s.waiters
    decreases |es|
  {
    if es == [] then s
    else SweepEvents(CancelAll(s.(waitedOn := Without(s.waitedOn, es[0])), s.waiters[es[0]]), es[1..])
  }

  function DoSweep(s: State): State
    requires s.current in s.info && forall e :: e in s.waitedOn ==> e in s.waiters
  {
    SweepEvents(s, s.waitedOn)
  }

  // ----- where the tasks are

  /** The tasks of `loose` are in no queue and not finished; every other task is in exactly
      one queue, or finished. */
  ghost predicate Placed(s: State, loose: set<Task>) {
    PlacedIn(s.active, s.waiters, s.info, loose)
  }

  ghost predicate PlacedIn(active: seq<Task>, waiters: map<Event, seq<Task>>, info: map<Task, Info>, loose: set<Task>) {
    && Distinct(active)
    && (forall t :: t in active ==> t in info && !info[t].closed && t !in loose)
    && (forall e :: e in waiters ==> Distinct(waiters[e]))
    && (forall e, t :: e in waiters && t in waiters[e] ==> t !in loose && t !in active && IsParked(info, t, e))
    && (forall t :: t in loose ==> t in info && !info[t].closed)
    && (forall t :: t in info ==> IsSomewhere(active, waiters, info[t], loose, t))
  }

  ghost predicate IsParked(info: map<Task, Info>, t: Task, e: Event) {
    t in info && !info[t].closed && info[t].waitingOn == Some(e) && info[t].control == InWait(e)
  }

  ghost predicate IsSomewhere(active: seq<Task>, waiters: map<Event, seq<Task>>, i: Info, loose: set<Task>, t: Task) {
    && t.joinEvent in waiters
    && (i.waitingOn.Some? ==> i.waitingOn.value in waiters)
    && (i.closed || t in loose || t in active || (i.waitingOn.Some? && t in waiters[i.waitingOn.value]))
  }

  lemma PushActivePlaced(s: State, loose: set<Task>, t: Task)
    requires Placed(s, loose) && t in loose
    ensures Placed(PushActive(s, t), loose - {t})
  {
    DistinctConcat(s.active, [t]);
  }

  lemma PushWaiterPlaced(s: State, loose: set<Task>, e: Event, t: Task)
    requires Placed(s, loose) && t in loose && e in s.waiters
    requires s.info[t].waitingOn == Some(e) && s.info[t].control == InWait(e)
    ensures Placed(PushWaiter(s, e, t), loose - {t})
  {
    DistinctConcat(s.waiters[e], [t]);
  }

  lemma OutOfActive(s: State, loose: set<Task>, t: Task)
    requires Placed(s, loose) && t in s.active
    ensures Placed(s.(active := Without(s.active, t)), loose + {t})
  {
    WithoutDistinct(s.active, t);
  }

  lemma OutOfWaiters(s: State, loose: set<Task>, t: Task, e: Event)
    requires Placed(s, loose) && e in s.waiters && t in s.waiters[e]
    ensures Placed(s.(waiters := s.waiters[e := Without(s.waiters[e], t)]), loose + {t})
  {
    WithoutDistinct(s.waiters[e], t);
  }

  lemma DetachedActive(s: State, loose: set<Task>, t: Task)
    requires Placed(s, loose) && t in s.active
    ensures QueuesWithout(s.waiters, t) == s.waiters
  {
  }

  lemma DetachedParked(s: State, loose: set<Task>, t: Task, e: Event)
    requires Placed(s, loose) && e in s.waiters && t in s.waiters[e]
    ensures QueuesWithout(s.waiters, t) == s.waiters[e := Without(s.waiters[e], t)]
  {
    forall f | f in s.waiters && f != e ensures Without(s.waiters[f], t) == s.waiters[f] {
      assert IsParked(s.info, t, e);
      assert t in s.waiters[f] ==> IsParked(s.info, t, f);
    }
  }

  /** A loose task is in no queue, so detaching it changes nothing. */
  lemma LooseIsDetached(s: State, loose: set<Task>, t: Task)
    requires Placed(s, loose) && t in loose
    ensures Detached(s, t) == s
  {
    assert QueuesWithout(s.waiters, t) == s.waiters;
  }

  lemma DetachedPlaced(s: State, loose: set<Task>, t: Task)
    requires Placed(s, loose) && t in s.info && !s.info[t].closed
    ensures Placed(Detached(s, t), loose + {t})
  {
    if t in loose {
      LooseIsDetached(s, loose, t);
      assert loose + {t} == loose;
    } else if t in s.active {
      DetachedActive(s, loose, t);
      OutOfActive(s, loose, t);
    } else {
      assert IsSomewhere(s.active, s.waiters, s.info[t], loose, t);
      DetachedParked(s, loose, t, s.info[t].waitingOn.value);
      OutOfWaiters(s, loose, t, s.info[t].waitingOn.value);
    }
  }

  lemma WithInfoPlaced(s: State, loose: set<Task>, t: Task, i: Info)
    requires Placed(s, loose) && t in s.info && i.closed == s.info[t].closed
    requires t in loose || i.closed || i == s.info[t].(cancelled := i.cancelled)
    requires i.waitingOn.Some? ==> i.waitingOn.value in s.waiters
    ensures Placed(WithInfo(s, t, i), loose)
  {
  }

  lemma WakePlaced(s: State, loose: set<Task>, e: Event)
    requires Placed(s, loose) && e in s.waiters
    ensures Placed(Wake(s, e), loose)
  {
    DistinctConcat(s.active, s.waiters[e]);
  }

  lemma DispatchPlaced(s: State)
    requires Placed(s, {}) && s.active != []
    ensures Placed(Dispatch(s), {s.active[0]})
  {
    var t, rest := s.active[0], s.active[1..];
    assert s.active == [t] + rest;
    DistinctConcat([t], rest);
    assert t in [t] && t in s.active;
    assert forall u :: u in s.active <==> u == t || u in rest;
  }

  /** An event is in the list of waited-on events exactly while its queue is not empty. */
  ghost predicate Listed(s: State) {
    && Distinct(s.waitedOn)
    && (forall e :: e in s.waitedOn ==> e in s.waiters)
    && (forall e :: e in s.waiters ==> (e in s.waitedOn <==> s.waiters[e] != []))
  }

  // ----- what a cancellation amounts to

  /** The flag of `t` is set and the current task's `waitingOn` is cleared. */
  function CancelInfo(s: State, t: Task): map<Task, Info>
    requires s.current in s.info && t in s.info && t != s.current
  {
    s.info[t := s.info[t].(cancelled := true)][s.current := s.info[s.current].(waitingOn := None)]
  }

  lemma CancelReady(s: State, t: Task)
    requires Placed(s, {s.current}) && t in s.active
    requires s.info[t].waitingOn.Some? && s.waiters[s.info[t].waitingOn.value] == [] ==>
               s.info[t].waitingOn.value !in s.waitedOn
    ensures DoCancel(s, t) == s.(active := Without(s.active, t) + [t], info := CancelInfo(s, t))
  {
    DetachedActive(s, {s.current}, t);
  }

  lemma CancelParked(s: State, t: Task, e: Event)
    requires Placed(s, {s.current}) && e in s.waiters && t in s.waiters[e]
    ensures DoCancel(s, t) == Delist(s.(active := s.active + [t],
                                        waiters := s.waiters[e := Without(s.waiters[e], t)],
                                        info := CancelInfo(s, t)), e)
  {
    DetachedParked(s, {s.current}, t, e);
    assert Detached(s, t).active == s.active && s.info[t].waitingOn == Some(e);
  }

  lemma CancelPlaced(s: State, t: Task)
    requires Placed(s, {s.current}) && t in s.info && t != s.current && !s.info[t].closed
    ensures Placed(DoCancel(s, t), {s.current})
  {
    var c := s.current;
    var s1 := WithInfo(s, t, s.info[t].(cancelled := true));
    WithInfoPlaced(s, {c}, t, s.info[t].(cancelled := true));
    DetachedPlaced(s1, {c}, t);
    var s2 := Detached(s1, t);
    PushActivePlaced(s2, {c} + {t}, t);
    assert {c} + {t} - {t} == {c};
    var s3 := PushActive(s2, t);
    WithInfoPlaced(s3, {c}, c, s3.info[c].(waitingOn := None));
  }
}
