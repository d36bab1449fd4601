/** The scheduler as s_task/s_task.c and s_task/s_event.c run it: rings of nodes, flags in
    the task records, and one current task. Every operation is proved to do to its queues
    what the operation of the same name in `SeqScheduler` does to sequences. */
module RingScheduler {
  import opened Options
  import opened Seqs
  import opened Rings
  import opened Tasks
  import opened SeqScheduler
  import opened SchedulerShape
  import opened SchedulerInvariant
  import SweepOrder = Sweep

  /** The main task and its join event, in a system that has only its two list heads. */
  lemma FirstTask(a: Node, w: Node, t: Task, i: Info)
    requires a != w && t.node !in {a, w} && IsRing([a]) && IsRing([w]) && IsRing([t.node])
    ensures var s := WithInfo(State(t, t, [], map[], [], map[]), t, i);
            var places := map[a := ActiveHead, w := EventsHead][t.node := TaskNode(t)];
            Named(places, s, a, w) && Shaped(ShapeOf(s, places), {a, w} + {t.node})
  {
    var s0, p0 := State(t, t, [], map[], [], map[]), map[a := ActiveHead, w := EventsHead];
    BareShape(s0, a, w);
    NewTaskNamed(s0, p0, a, w, t, i);
    NewTaskShape(s0, p0, a, w, t, i);
    AddAlone(ShapeOf(s0, p0), {a, w}, t.node);
  }

  lemma InitialShape(a: Node, w: Node, t: Task)
    requires var e := t.joinEvent;
             && a != w && t.node !in {a, w} && e.waitList !in {a, w, t.node} && e.self !in {a, w, t.node, e.waitList}
             && IsRing([a]) && IsRing([w]) && IsRing([t.node]) && IsRing([e.waitList]) && IsRing([e.self])
    ensures var places := WithEvent(map[a := ActiveHead, w := EventsHead][t.node := TaskNode(t)], t.joinEvent);
            Named(places, Initial(t), a, w) && Shaped(ShapeOf(Initial(t), places), places.Keys)
  {
    var e, i := t.joinEvent, Info(None, false, false, Running);
    FirstTask(a, w, t, i);
    var s, p := WithInfo(State(t, t, [], map[], [], map[]), t, i), map[a := ActiveHead, w := EventsHead][t.node := TaskNode(t)];
    var g, nodes := ShapeOf(s, p), {a, w} + {t.node};
    InitEventNamed(s, p, a, w, e);
    InitEventShape(s, p, a, w, e);
    AddAlone(g, nodes, e.waitList);
    AddAlone(g[e.waitList := []], nodes + {e.waitList}, e.self);
    assert WithEvent(p, e).Keys == nodes + {e.waitList} + {e.self};
    assert DoInitEvent(s, e) == Initial(t);
  }

  class Scheduler {
    const activeTasks: Node
    const waitingEvents: Node
    const mainTask: Task
    var currentTask: Task
    var places: map<Node, Place>
    ghost var model: State

    ghost predicate Valid()
      reads this, places.Keys, model.info.Keys
    {
      var fieldsMatch := FieldsMatch(model.info);
      var nodesNamed := Named(places, model, activeTasks, waitingEvents);
      var ringsMatch := Shaped(ShapeOf(model, places), places.Keys);
      var fixed := model.main == mainTask && model.current == currentTask && currentTask in model.info;
      fixed && fieldsMatch && nodesNamed && ringsMatch
    }

    static ghost predicate FieldsMatch(info: map<Task, Info>)
      reads info.Keys
    {
      forall t :: t in info ==> FieldsOf(t, info[t])
    }

    static ghost predicate FieldsOf(t: Task, i: Info)
      reads t
    {
      && (t.waitingEvent == if i.waitingOn.Some? then i.waitingOn.value else null)
      && t.waitingCancelled == i.cancelled
      && t.closed == i.closed
    }

    /** s_task_init_system_ */
    constructor ()
      ensures Valid() && model == Initial(mainTask)
      ensures fresh(places.Keys) && fresh(model.info.Keys)
    {
      var a := new Node();
      var w := new Node();
      var t := new Task();
      var e := t.joinEvent;
      activeTasks, waitingEvents, mainTask, currentTask := a, w, t, t;
      places := map[a := ActiveHead, w := EventsHead][t.node := TaskNode(t)][e.waitList := WaitHead(e)][e.self := SelfNode(e)];
      model := Initial(t);
      new;
      InitialShape(a, w, t);
      assert places.Keys == {a, w, t.node, e.waitList, e.self};
    }

    // ----- moves

    /** s_list_attach, in a system: it leaves the records and the scheduler's fields alone. */
    static method AttachIn(ghost r: Scheduler, h: Node, m: Node, ghost g: Shape, ghost nodes: set<Node>, ghost info: map<Task, Info>)
      requires Shaped(g, nodes) && h in g && m in g && h != m && FieldsMatch(info)
      modifies nodes
      ensures Shaped(Join(g, h, m), nodes) && FieldsMatch(info)
      ensures r.model == old(r.model) && r.places == old(r.places) && r.currentTask == old(r.currentTask)
    {
      Attach(h, m, g, nodes);
    }

    /** s_list_detach, in a system. */
    static method DetachIn(ghost r: Scheduler, n: Node, ghost g: Shape, ghost nodes: set<Node>, ghost info: map<Task, Info>)
      requires Shaped(g, nodes) && (n in g ==> g[n] == []) && (exists h :: h in g && n in RingAt(g, h)) && FieldsMatch(info)
      modifies nodes
      ensures Shaped(Unlink(g, n), nodes) && FieldsMatch(info)
      ensures r.model == old(r.model) && r.places == old(r.places) && r.currentTask == old(r.currentTask)
    {
      Detach(n, g, nodes);
    }

    method DetachTask(t: Task)
      requires Valid() && t in model.info
      modifies `model, places.Keys
      ensures Valid() && model == Detached(old(model), t)
    {
      DetachMove(model, places, activeTasks, waitingEvents, t);
      ghost var g := ShapeOf(model, places);
      model := Detached(model, t);
      DetachIn(this, t.node, g, places.Keys, model.info);
    }

    method AttachActive(t: Task)
      requires Valid() && t in model.info && !InQueue(model, t)
      modifies `model, places.Keys
      ensures Valid() && model == PushActive(old(model), t) && places == old(places)
    {
      PushActiveMove(model, places, activeTasks, waitingEvents, t);
      ghost var g := ShapeOf(model, places);
      AttachIn(this, activeTasks, t.node, g, places.Keys, model.info);
      model := PushActive(model, t);
    }

    method AttachWaiter(e: Event, t: Task)
      requires Valid() && t in model.info && !InQueue(model, t) && e in model.waiters
      modifies `model, places.Keys
      ensures Valid() && model == PushWaiter(old(model), e, t)
    {
      PushWaiterMove(model, places, activeTasks, waitingEvents, e, t);
      ghost var g := ShapeOf(model, places);
      AttachIn(this, e.waitList, t.node, g, places.Keys, model.info);
      model := PushWaiter(model, e, t);
    }

    /** Part of s_event_remove_from_waiting_list: the event's own node leaves its ring. */
    method DetachSelf(e: Event)
      requires Valid() && e in model.waiters
      modifies `model, places.Keys
      ensures Valid() && model == old(model).(waitedOn := Without(old(model).waitedOn, e))
    {
      UnlistMove(model, places, activeTasks, waitingEvents, e);
      ghost var g := ShapeOf(model, places);
      model := model.(waitedOn := Without(model.waitedOn, e));
      DetachIn(this, e.self, g, places.Keys, model.info);
    }

    method AttachSelf(e: Event)
      requires Valid() && e in model.waiters && e !in model.waitedOn
      modifies `model, places.Keys
      ensures Valid() && model == old(model).(waitedOn := old(model).waitedOn + [e])
    {
      ListMove(model, places, activeTasks, waitingEvents, e);
      ghost var g := ShapeOf(model, places);
      AttachIn(this, waitingEvents, e.self, g, places.Keys, model.info);
      model := model.(waitedOn := model.waitedOn + [e]);
    }

    /** The first two calls of s_event_set: the whole ring of the event is spliced into the
        ready ring, and the head of the event is taken out again. */
    method SpliceWaiters(e: Event)
      requires Valid() && e in model.waiters
      modifies `model, places.Keys
      ensures Valid() && model == Wake(old(model), e)
    {
      WakeMove(model, places, activeTasks, waitingEvents, e);
      ghost var g := ShapeOf(model, places);
      model := Wake(model, e);
      AttachIn(this, activeTasks, e.waitList, g, places.Keys, model.info);
      DetachIn(this, e.waitList, Join(g, activeTasks, e.waitList), places.Keys, model.info);
    }

    /** s_list_is_empty on an event's queue. */
    method NobodyWaits(e: Event) returns (empty: bool)
      requires Valid() && e in model.waiters
      ensures empty <==> model.waiters[e] == []
    {
      assert e.waitList in ShapeOf(model, places);
      empty := IsEmpty(e.waitList, ShapeOf(model, places), places.Keys);
    }

    /** s_event_add_to_waiting_list */
    method AddToWaitingList(e: Event)
      requires Valid() && e in model.waiters
      modifies `model, places.Keys
      ensures Valid() && model == Enlist(old(model), e)
    {
      var empty := NobodyWaits(e);
      if empty {
        DetachSelf(e);
        AttachSelf(e);
      }
    }

    /** s_event_remove_from_waiting_list */
    method RemoveFromWaitingList(e: Event)
      requires Valid() && e in model.waiters
      modifies `model, places.Keys
      ensures Valid() && model == Delist(old(model), e)
    {
      var empty := NobodyWaits(e);
      if empty {
        DetachSelf(e);
      }
    }

    /** The record of a task changes, and the call it is in. */
    method SetRecord(t: Task, waitingEvent: Event?, cancelled: bool, closed: bool, ghost control: Control)
      requires Valid() && t in model.info
      modifies `model, t
      ensures Valid()
      ensures model == WithInfo(old(model), t,
                                Info(if waitingEvent == null then None else Some(waitingEvent), cancelled, closed, control))
    {
      ghost var i := Info(if waitingEvent == null then None else Some(waitingEvent), cancelled, closed, control);
      InfoMove(model, WithInfo(model, t, i), places, activeTasks, waitingEvents);
      ghost var g := ShapeOf(model, places);
      WriteRecord(this, t, waitingEvent, cancelled, closed, i, g, places.Keys, model.info);
      model := WithInfo(model, t, i);
    }

    static method WriteRecord(ghost r: Scheduler, t: Task, waitingEvent: Event?, cancelled: bool, closed: bool, ghost i: Info,
                              ghost g: Shape, ghost nodes: set<Node>, ghost info: map<Task, Info>)
      requires Shaped(g, nodes) && FieldsMatch(info)
      requires i.cancelled == cancelled && i.closed == closed
      requires i.waitingOn == if waitingEvent == null then None else Some(waitingEvent)
      modifies t
      ensures Shaped(g, nodes) && FieldsMatch(info[t := i])
      ensures r.model == old(r.model) && r.places == old(r.places) && r.currentTask == old(r.currentTask)
    {
      t.waitingEvent, t.waitingCancelled, t.closed := waitingEvent, cancelled, closed;
    }

    /** The node after the head of the ready ring is detached; its task is returned. */
    method TakeFirst() returns (t: Task)
      requires Valid() && Placed(model, {}) && model.active != []
      modifies `model, places.Keys
      ensures Valid() && t == old(model).active[0]
      ensures model == old(model).(active := old(model).active[1..])
    {
      ghost var g := ShapeOf(model, places);
      TakeMove(model, places, activeTasks, waitingEvents);
      assert After(RingAt(g, activeTasks), 0) == g[activeTasks][0];
      var next := activeTasks.next;
      t := places[next].task;
      model := model.(active := model.active[1..]);
      DetachIn(this, next, g, places.Keys, model.info);
    }

    /** s_task_call_next */
    method CallNext()
      requires Valid() && Placed(model, {})
      modifies `model, `currentTask, places.Keys
      ensures Valid() && model == Dispatch(old(model))
    {
      var empty := NothingReady();
      if !empty {
        var t := TakeFirst();
        SwitchTo(t);
      }
    }

    method NothingReady() returns (empty: bool)
      requires Valid()
      ensures empty <==> model.active == []
    {
      empty := IsEmpty(activeTasks, ShapeOf(model, places), places.Keys);
    }

    method SwitchTo(t: Task)
      requires Valid() && t in model.info
      modifies `model, `currentTask
      ensures Valid() && model == old(model).(current := t)
    {
      InfoMove(model, model.(current := t), places, activeTasks, waitingEvents);
      currentTask := t;
      model := model.(current := t);
    }

    // ----- operations

    /** s_event_wait up to the switch. */
    method ParkCurrent(e: Event)
      requires Valid() && e in model.waiters
      modifies `model, places.Keys, currentTask
      ensures Valid() && model == Park(old(model), e)
    {
      AddToWaitingList(e);
      DetachTask(currentTask);
      AttachWaiter(e, currentTask);
      SetRecord(currentTask, e, false, currentTask.closed, InWait(e));
    }

    /** s_event_wait, up to and including the switch. */
    method Wait(e: Event)
      requires Valid() && Placed(model, {currentTask}) && e in model.waiters
      modifies `model, `currentTask, places.Keys, currentTask
      ensures Valid() && model == DoWait(old(model), e)
    {
      ParkPlaced(model, e);
      ParkCurrent(e);
      CallNext();
    }

    /** s_event_set */
    method Set(e: Event)
      requires Valid() && e in model.waiters
      modifies `model, places.Keys, currentTask
      ensures Valid() && model == DoSet(old(model), e)
    {
      SpliceWaiters(e);
      ForgetEvent();
      RemoveFromWaitingList(e);
    }

    /** current_task->waiting_event = NULL */
    method ForgetEvent()
      requires Valid()
      modifies `model, currentTask
      ensures Valid() && model == ClearWaitingOn(old(model))
    {
      SetRecord(currentTask, null, currentTask.waitingCancelled, currentTask.closed, model.info[currentTask].control);
    }

    /** s_task_cancel_wait */
    method CancelWait(t: Task)
      requires Valid() && t in model.info
      requires t.waitingEvent != null ==> t.waitingEvent in model.waiters
      modifies `model, places.Keys, currentTask, t
      ensures Valid() && model == DoCancel(old(model), t)
    {
      var waitingEvent := Requeue(t);
      ForgetAndDelist(waitingEvent);
    }

    /** Its second half: the current task's event is cleared, and the target's is delisted if
        nobody else waits on it. */
    method ForgetAndDelist(waitingEvent: Event?)
      requires Valid() && (waitingEvent != null ==> waitingEvent in model.waiters)
      modifies `model, places.Keys, currentTask
      ensures Valid()
      ensures var s := ClearWaitingOn(old(model)); model == if waitingEvent == null then s else Delist(s, waitingEvent)
    {
      ForgetEvent();
      if waitingEvent != null {
        RemoveFromWaitingList(waitingEvent);
      }
    }

    /** Its first half: `t`, flagged, goes to the end of the ready queue. */
    method Requeue(t: Task) returns (waitingEvent: Event?)
      requires Valid() && t in model.info
      modifies `model, places.Keys, t
      ensures Valid() && waitingEvent == old(t.waitingEvent)
      ensures var s := old(model); model == PushActive(Detached(WithInfo(s, t, s.info[t].(cancelled := true)), t), t)
    {
      waitingEvent := t.waitingEvent;
      SetRecord(t, t.waitingEvent, true, t.closed, model.info[t].control);
      DetachTask(t);
      AttachActive(t);
    }

    /** The current task goes to the end of the ready queue. */
    method RequeueCurrent(cancelled: bool, ghost control: Control)
      requires Valid() && !InQueue(model, currentTask)
      modifies `model, places.Keys, currentTask
      ensures Valid()
      ensures var s := old(model); var i := s.info[s.current].(cancelled := cancelled, control := control);
              model == PushActive(WithInfo(s, s.current, i), s.current)
    {
      SetRecord(currentTask, currentTask.waitingEvent, cancelled, currentTask.closed, control);
      AttachActive(currentTask);
    }

    method RequeueAndSwitch(cancelled: bool, ghost control: Control)
      requires Valid() && Placed(model, {currentTask})
      modifies `model, `currentTask, places.Keys, currentTask
      ensures Valid()
      ensures var s := old(model); var i := s.info[s.current].(cancelled := cancelled, control := control);
              model == Dispatch(PushActive(WithInfo(s, s.current, i), s.current))
    {
      RequeuePlaced(model, model.info[currentTask].(cancelled := cancelled, control := control));
      LooseNotQueued(model, currentTask);
      RequeueCurrent(cancelled, control);
      CallNext();
    }

    /** s_task_yield, up to and including the switch. */
    method Yield()
      requires Valid() && Placed(model, {currentTask})
      modifies `model, `currentTask, places.Keys, currentTask
      ensures Valid() && model == DoYield(old(model))
    {
      RequeueAndSwitch(false, InYield);
    }

    /** One turn of the loop of s_task_main_loop_once. */
    method LoopTurn()
      requires Valid() && Placed(model, {currentTask})
      modifies `model, `currentTask, places.Keys, currentTask
      ensures Valid() && model == DoLoop(old(model))
    {
      RequeueAndSwitch(currentTask.waitingCancelled, InLoop);
    }

    /** The end of s_task_context_entry, up to the switch. */
    method CloseCurrent()
      requires Valid() && currentTask.joinEvent in model.waiters
      modifies `model, places.Keys, currentTask
      ensures Valid() && model == Close(old(model))
    {
      CloseAndSet();
      LeaveCall(Finished);
    }

    method CloseAndSet()
      requires Valid() && currentTask.joinEvent in model.waiters
      modifies `model, places.Keys, currentTask
      ensures Valid()
      ensures var s := old(model); var t := s.current;
              model == DoSet(WithInfo(s, t, s.info[t].(closed := true)), t.joinEvent)
    {
      MarkClosed();
      Set(currentTask.joinEvent);
    }

    method MarkClosed()
      requires Valid()
      modifies `model, currentTask
      ensures Valid() && model == WithInfo(old(model), currentTask, old(model).info[currentTask].(closed := true))
    {
      SetRecord(currentTask, currentTask.waitingEvent, currentTask.waitingCancelled, true, model.info[currentTask].control);
    }

    /** The start of s_task_next. */
    method LeaveCall(ghost control: Control)
      requires Valid()
      modifies `model, currentTask
      ensures Valid() && model == Suspend(old(model), control)
    {
      SetRecord(currentTask, currentTask.waitingEvent, false, currentTask.closed, control);
    }

    /** The end of s_task_context_entry. */
    method Finish()
      requires Valid() && Placed(model, {currentTask}) && currentTask.joinEvent in model.waiters
      modifies `model, `currentTask, places.Keys, currentTask
      ensures Valid() && model == DoFinish(old(model))
    {
      ClosePlaced(model);
      CloseCurrent();
      CallNext();
    }

    /** The end of s_event_wait, after the switch back. */
    method ReturnFromWait() returns (ret: int)
      requires Valid() && model.info[currentTask].control.InWait?
      modifies `model, currentTask
      ensures Valid() && model == DoResume(old(model))
      ensures ret == WaitResult(old(model))
    {
      ret := if currentTask.waitingCancelled then -1 else 0;
      SetRecord(currentTask, currentTask.waitingEvent, false, currentTask.closed, Running);
    }

    /** s_event_init, on an event the system does not know yet. */
    method InitEvent(e: Event)
      requires Valid() && e !in model.waiters
      requires e.waitList !in places && e.self !in places && e.waitList != e.self
      modifies `model, `places, e.waitList, e.self
      ensures Valid() && model == DoInitEvent(old(model), e)
      ensures places == WithEvent(old(places), e) && places.Keys == old(places.Keys) + {e.waitList, e.self}
    {
      InitEventNamed(model, places, activeTasks, waitingEvents, e);
      InitEventShape(model, places, activeTasks, waitingEvents, e);
      ghost var g, nodes := ShapeOf(model, places), places.Keys;
      InitNodes(this, e, g, nodes, model.info);
      assert WithEvent(places, e).Keys == nodes + {e.waitList, e.self};
      Adopt(this, places[e.waitList := WaitHead(e)][e.self := SelfNode(e)], DoInitEvent(model, e),
            g[e.waitList := []][e.self := []], nodes + {e.waitList, e.self});
    }

    /** The system's fields change; its rings and records do not. */
    static method Adopt(r: Scheduler, places: map<Node, Place>, ghost model: State, ghost g: Shape, ghost nodes: set<Node>)
      requires Shaped(g, nodes) && FieldsMatch(model.info)
      modifies r`places, r`model
      ensures Shaped(g, nodes) && FieldsMatch(model.info) && r.places == places && r.model == model
    {
      r.places := places;
      r.model := model;
    }

    static method InitNodes(ghost r: Scheduler, e: Event, ghost g: Shape, ghost nodes: set<Node>, ghost info: map<Task, Info>)
      requires Shaped(g, nodes) && e.waitList !in nodes && e.self !in nodes && e.waitList != e.self && FieldsMatch(info)
      modifies e.waitList, e.self
      ensures Shaped(g[e.waitList := []][e.self := []], nodes + {e.waitList, e.self}) && FieldsMatch(info)
      ensures r.model == old(r.model) && r.places == old(r.places) && r.currentTask == old(r.currentTask)
    {
      InitAlone(e.waitList, g, nodes);
      InitAlone(e.self, g[e.waitList := []], nodes + {e.waitList});
      assert nodes + {e.waitList} + {e.self} == nodes + {e.waitList, e.self};
    }

    method AddTask(t: Task)
      requires Valid() && t !in model.info && t.node !in places
      modifies `model, `places, t, t.node
      ensures Valid() && model == WithInfo(old(model), t, Info(None, false, false, Fresh))
      ensures places == old(places)[t.node := TaskNode(t)]
      ensures !InQueue(model, t)
    {
      ghost var i := Info(None, false, false, Fresh);
      NewTaskNamed(model, places, activeTasks, waitingEvents, t, i);
      NewTaskShape(model, places, activeTasks, waitingEvents, t, i);
      ghost var g, nodes := ShapeOf(model, places), places.Keys;
      InitObject(this, t, i, g, nodes, model.info);
      assert places[t.node := TaskNode(t)].Keys == nodes + {t.node};
      Adopt(this, places[t.node := TaskNode(t)], WithInfo(model, t, i), g[t.node := []], nodes + {t.node});
    }

    static method InitObject(ghost r: Scheduler, t: Task, ghost i: Info, ghost g: Shape, ghost nodes: set<Node>, ghost info: map<Task, Info>)
      requires Shaped(g, nodes) && t.node !in nodes && FieldsMatch(info) && i == Info(None, false, false, Fresh)
      modifies t, t.node
      ensures Shaped(g[t.node := []], nodes + {t.node}) && FieldsMatch(info[t := i])
      ensures r.model == old(r.model) && r.places == old(r.places) && r.currentTask == old(r.currentTask)
    {
      InitAlone(t.node, g, nodes);
      WriteRecord(r, t, null, false, false, i, g[t.node := []], nodes + {t.node}, info);
    }

    static ghost function NodesOf(t: Task): set<Node> {
      {t.node, t.joinEvent.waitList, t.joinEvent.self}
    }

    /** Neither `t` nor its join event nor their nodes are in the system yet. */
    ghost predicate Unknown(t: Task)
      reads `model, `places
    {
      var e := t.joinEvent;
      var unknown := && t !in model.info && e !in model.waiters
                     && t.node !in places && e.waitList !in places && e.self !in places
                     && t.node != e.waitList && t.node != e.self && e.waitList != e.self;
      unknown
    }

    /** s_task_create, on a task the system does not know yet. */
    method Create(t: Task)
      requires Valid() && Unknown(t)
      modifies `model, `places, places.Keys, t, NodesOf(t)
      ensures Valid() && model == DoCreate(old(model), t)
      ensures places.Keys == old(places.Keys) + NodesOf(t)
    {
      InitTask(t);
      AttachActive(t);
    }

    /** s_task_create on a record that has just been allocated. */
    method Spawn() returns (t: Task)
      requires Valid()
      modifies `model, `places, places.Keys
      ensures Valid() && fresh(t) && fresh(NodesOf(t)) && model == DoCreate(old(model), t)
      ensures t !in old(model.info) && t.joinEvent !in old(model.waiters)
      ensures places.Keys == old(places.Keys) + NodesOf(t)
    {
      t := NewRecord();
      Create(t);
    }

    method NewRecord() returns (t: Task)
      requires Valid()
      ensures Valid() && Unknown(t) && fresh(t) && fresh(NodesOf(t))
    {
      t := new Task();
    }

    method InitTask(t: Task)
      requires Valid() && Unknown(t)
      modifies `model, `places, t, NodesOf(t)
      ensures Valid() && !InQueue(model, t)
      ensures model == WithInfo(DoInitEvent(old(model), t.joinEvent), t, Info(None, false, false, Fresh))
      ensures places.Keys == old(places.Keys) + NodesOf(t)
    {
      InitEvent(t.joinEvent);
      AddTask(t);
    }

    // ----- the dead-task sweep

    /** The first node of an event's queue, or the head of the queue when nobody waits. */
    ghost function FirstWaiter(e: Event): Node
      requires e in model.waiters
      reads this
    {
      if model.waiters[e] == [] then e.waitList else model.waiters[e][0].node
    }

    method ReadFirst(e: Event) returns (n: Node)
      requires Valid() && e in model.waiters
      ensures n == FirstWaiter(e)
    {
      FirstSteps(ShapeOf(model, places), places.Keys, e.waitList);
      n := e.waitList.next;
    }

    method ReadSecond(e: Event, first: Node) returns (n: Node)
      requires Valid() && e in model.waiters && model.waiters[e] != [] && first == FirstWaiter(e)
      ensures n == if |model.waiters[e]| == 1 then e.waitList else model.waiters[e][1].node
      ensures first in places && places[first] == TaskNode(model.waiters[e][0])
    {
      FirstSteps(ShapeOf(model, places), places.Keys, e.waitList);
      assert model.waiters[e][0] in model.waiters[e];
      n := first.next;
    }

    /** One turn of the inner loop of s_event_cancel_dead_waiting_tasks_. */
    method CancelFirst(e: Event, thisTask: Node) returns (nextTask: Node)
      requires Valid() && Placed(model, {currentTask}) && e in model.waiters && e !in model.waitedOn
      requires model.waiters[e] != [] && thisTask == FirstWaiter(e)
      modifies `model, places.Keys, model.info.Keys
      ensures Valid() && Placed(model, {currentTask})
      ensures var s := old(model); var ts := s.waiters[e];
              ts[0] in s.info && ts[0] != s.current && model == SweepOrder.MovedOne(s, e, ts) == DoCancel(s, ts[0])
      ensures nextTask == FirstWaiter(e)
    {
      SweepOrder.CancelOne(model, e, model.waiters[e]);
      assert IsParked(model.info, model.waiters[e][0], e);
      nextTask := ReadSecond(e, thisTask);
      CancelWait(places[thisTask].task);
    }

    /** The inner loop of s_event_cancel_dead_waiting_tasks_. */
    method CancelWaiters(e: Event) returns (n: nat)
      requires Valid() && Placed(model, {currentTask}) && e in model.waiters && e !in model.waitedOn
      modifies `model, places.Keys, model.info.Keys
      ensures Valid() && model == CancelAll(old(model), old(model).waiters[e])
      ensures n == |old(model).waiters[e]|
    {
      n := 0;
      var thisTask := ReadFirst(e);
      while thisTask != e.waitList
        invariant Valid() && Placed(model, {currentTask})
        invariant model.info.Keys == old(model.info.Keys)
        invariant e in model.waiters && e !in model.waitedOn && thisTask == FirstWaiter(e)
        invariant CancelAll(model, model.waiters[e]) == CancelAll(old(model), old(model).waiters[e])
        invariant n + |model.waiters[e]| == |old(model).waiters[e]|
        decreases |model.waiters[e]|
      {
        thisTask := CancelFirst(e, thisTask);
        n := n + 1;
      }
    }

    ghost function FirstEvent(): Node
      reads this
    {
      if model.waitedOn == [] then waitingEvents else model.waitedOn[0].self
    }

    method ReadFirstEvent() returns (n: Node)
      requires Valid()
      ensures n == FirstEvent() && (n == waitingEvents <==> model.waitedOn == [])
    {
      FirstSteps(ShapeOf(model, places), places.Keys, waitingEvents);
      assert model.waitedOn != [] ==> model.waitedOn[0] in model.waitedOn;
      n := waitingEvents.next;
    }

    method ReadSecondEvent(first: Node) returns (n: Node)
      requires Valid() && model.waitedOn != [] && first == FirstEvent()
      ensures n == if |model.waitedOn| == 1 then waitingEvents else model.waitedOn[1].self
      ensures n == waitingEvents <==> |model.waitedOn| == 1
      ensures first in places && places[first] == SelfNode(model.waitedOn[0])
      ensures model.waitedOn[0] in model.waiters
    {
      FirstSteps(ShapeOf(model, places), places.Keys, waitingEvents);
      assert model.waitedOn[0] in model.waitedOn && (|model.waitedOn| > 1 ==> model.waitedOn[1] in model.waitedOn);
      n := first.next;
    }

    /** The sweep is under way: it ends in `goal`, and `left` tasks are still parked. */
    static ghost predicate Sweeping(s: State, goal: State, left: nat) {
      && s.current in s.info && (forall e :: e in s.waitedOn ==> e in s.waiters)
      && var sweeping := Placed(s, {s.current}) && Distinct(s.waitedOn) && SweepEvents(s, s.waitedOn) == goal;
         sweeping && |SweepOrder.InOrder(s.waiters, s.waitedOn)| == left
    }

    /** What taking the first event out of the list and cancelling its queue does for the sweep. */
    static lemma SweepTurn(s: State, goal: State, left: nat)
      requires Sweeping(s, goal, left) && s.waitedOn != []
      ensures var e := s.waitedOn[0]; var s1 := s.(waitedOn := Without(s.waitedOn, e));
              && Placed(s1, {s.current}) && e !in s1.waitedOn && s1.waitedOn == s.waitedOn[1..]
              && |s.waiters[e]| <= left && Sweeping(CancelAll(s1, s.waiters[e]), goal, left - |s.waiters[e]|)
              && CancelAll(s1, s.waiters[e]).waitedOn == s.waitedOn[1..]
    {
      var e := s.waitedOn[0];
      FirstOut(s.waitedOn);
      SweepOrder.InOrderFrame(s.waiters, e, s.waitedOn[1..]);
      SweepOrder.CancelQueue(s.(waitedOn := s.waitedOn[1..]), e, s.waiters[e]);
    }

    /** One turn of the outer loop of s_event_cancel_dead_waiting_tasks_. */
    method SweepFirst(thisEvent: Node, ghost goal: State, ghost left: nat) returns (nextEvent: Node, n: nat)
      requires Valid() && Sweeping(model, goal, left) && model.waitedOn != [] && thisEvent == FirstEvent()
      modifies `model, places.Keys, model.info.Keys
      ensures Valid() && n <= left && Sweeping(model, goal, left - n)
      ensures model.waitedOn == old(model).waitedOn[1..] && model.info.Keys == old(model).info.Keys
      ensures nextEvent == FirstEvent() && (nextEvent == waitingEvents <==> model.waitedOn == [])
    {
      nextEvent := ReadSecondEvent(thisEvent);
      var e := places[thisEvent].event;
      SweepTurn(model, goal, left);
      n := CancelEvent(e);
    }

    method CancelEvent(e: Event) returns (n: nat)
      requires Valid() && Placed(model, {currentTask}) && e in model.waiters
      modifies `model, places.Keys, model.info.Keys
      ensures Valid() && n == |old(model).waiters[e]|
      ensures var s := old(model); model == CancelAll(s.(waitedOn := Without(s.waitedOn, e)), s.waiters[e])
    {
      DetachSelf(e);
      n := CancelWaiters(e);
    }

    /** s_event_cancel_dead_waiting_tasks_ */
    method CancelDead() returns (ret: nat)
      requires Valid() && Placed(model, {currentTask}) && Listed(model)
      modifies `model, places.Keys, model.info.Keys
      ensures Valid() && model == DoSweep(old(model))
      ensures ret == |SweepOrder.InOrder(old(model).waiters, old(model).waitedOn)|
    {
      ghost var goal, total, tasks := DoSweep(model), |SweepOrder.InOrder(model.waiters, model.waitedOn)|, model.info.Keys;
      ret := 0;
      var thisEvent := ReadFirstEvent();
      while thisEvent != waitingEvents
        invariant Valid() && model.info.Keys == tasks && ret <= total && Sweeping(model, goal, total - ret)
        invariant thisEvent == FirstEvent() && (thisEvent == waitingEvents <==> model.waitedOn == [])
        decreases |model.waitedOn|
      {
        var n;
        thisEvent, n := SweepFirst(thisEvent, goal, total - ret);
        ret := ret + n;
      }
    }

    /** The end of s_task_yield, after the switch back. */
    method ReturnFromYield()
      requires Valid() && model.info[currentTask].control.InYield?
      modifies `model, currentTask
      ensures Valid() && model == DoResume(old(model))
    {
      LeaveCall(Running);
    }

    /** What the current task does next after a switch, by where it stopped: it goes on in
        s_event_wait or in s_task_yield, it starts, or it leaves the main loop. */
    method Resume(at: Control)
      requires Valid() && at == model.info[currentTask].control
      modifies `model, currentTask
      ensures Valid() && model == DoResume(old(model))
    {
      match at
      case InWait(_) => var _ := ReturnFromWait();
      case InYield => ReturnFromYield();
      case _ => GoOn();
    }

    /** The record stays as it is. */
    method GoOn()
      requires Valid()
      modifies `model, currentTask
      ensures var s := old(model); Valid() && model == WithInfo(s, s.current, s.info[s.current].(control := Running))
    {
      SetRecord(currentTask, currentTask.waitingEvent, currentTask.waitingCancelled, currentTask.closed, Running);
    }

    // ----- every step at once

    /** The nodes of what a step brings into the system are not in it yet. */
    ghost predicate Brings(step: Step)
      reads `places
    {
      match step
      case InitEvent(e) => e.waitList !in places && e.self !in places && e.waitList != e.self
      case Create(t) =>
        && t.node !in places && t.joinEvent.waitList !in places && t.joinEvent.self !in places
        && t.node != t.joinEvent.waitList && t.node != t.joinEvent.self && t.joinEvent.waitList != t.joinEvent.self
      case _ => true
    }

    static ghost function BroughtNodes(step: Step): set<Node> {
      match step
      case InitEvent(e) => {e.waitList, e.self}
      case Create(t) => NodesOf(t)
      case _ => {}
    }

    static ghost function Brought(step: Step): set<object> {
      BroughtNodes(step) + if step.Create? then {step.task} else {}
    }

    /** A step that brings nothing into the system; `places` stays as it is. */
    method PerformInside(step: Step, at: Control)
      requires Valid() && Sound(model) && Enabled(model, step) && !step.InitEvent? && !step.Create?
      requires at == model.info[currentTask].control
      modifies `model, `currentTask, places.Keys, model.info.Keys
      ensures Valid() && model == Apply(old(model), step)
    {
      SoundStep(model, step);
      match step
      case Set(e) => Set(e);
      case Cancel(t) => CancelWait(t);
      case Sweep => var _ := CancelDead();
      case Wait(e) => Wait(e);
      case Yield => Yield();
      case Loop => LoopTurn();
      case Finish => Finish();
      case Resume => Resume(at);
    }

    method PerformBringing(step: Step)
      requires Valid() && Enabled(model, step) && Brings(step) && (step.InitEvent? || step.Create?)
      modifies `model, `places, places.Keys, Brought(step)
      ensures Valid() && model == Apply(old(model), step) && places.Keys == old(places.Keys) + BroughtNodes(step)
    {
      match step
      case InitEvent(e) => InitEvent(e);
      case Create(t) => Create(t);
    }

    /** Whatever step the program takes, the rings do what the sequences do, and every task is
        still in exactly one place. The current task is at `at`. No nodes come in but those that
        the step brings. */
    method Perform(step: Step, at: Control)
      requires Valid() && Sound(model) && Enabled(model, step) && Brings(step)
      requires at == model.info[currentTask].control
      modifies `model, `currentTask, `places, places.Keys, model.info.Keys, Brought(step)
      ensures Valid() && Sound(model) && model == Apply(old(model), step)
      ensures if step.InitEvent? || step.Create? then places.Keys == old(places.Keys) + BroughtNodes(step)
              else places == old(places)
    {
      SoundStep(model, step);
      if step.InitEvent? || step.Create? {
        PerformBringing(step);
      } else {
        PerformInside(step, at);
      }
    }
  }

  lemma LooseNotQueued(s: State, t: Task)
    requires Placed(s, {t})
    ensures !InQueue(s, t)
  {
  }

  /** The invariant, as one fact. */
  ghost predicate Sound(s: State) {
    var inv := Inv(s);
    inv
  }

  lemma SoundStep(s: State, step: Step)
    requires Sound(s) && Enabled(s, step)
    ensures Sound(Apply(s, step))
    ensures Placed(s, {s.current}) && Listed(s)
    ensures step.Cancel? && s.info[step.task].waitingOn.Some? ==> s.info[step.task].waitingOn.value in s.waiters
  {
    StepInv(s, step);
    if step.Cancel? {
      assert IsSomewhere(s.active, s.waiters, s.info[step.task], {s.current}, step.task);
    }
  }
}
