/** The records of the task system (include/s_task.h, s_task/s_task_internal.h). */
module Tasks {
  import opened Rings

  /** s_event_t: the head of a ring of parked tasks, and the node by which the event itself
      hangs in the ring of waited-on events. */
  class Event {
    const waitList: Node
    const self: Node

    constructor ()
      ensures fresh(waitList) && fresh(self) && waitList != self
      ensures IsRing([waitList]) && IsRing([self])
    {
      waitList := new Node();
      self := new Node();
    }
  }

  /** s_task_t, without its stack and saved registers. */
  class Task {
    const node: Node
    const joinEvent: Event
    var waitingEvent: Event?
    var waitingCancelled: bool
    var closed: bool

    constructor ()
      ensures fresh(node) && fresh(joinEvent) && fresh(joinEvent.waitList) && fresh(joinEvent.self)
      ensures node != joinEvent.waitList && node != joinEvent.self && joinEvent.waitList != joinEvent.self
      ensures IsRing([node]) && IsRing([joinEvent.waitList]) && IsRing([joinEvent.self])
      ensures waitingEvent == null && !waitingCancelled && !closed
    {
      node := new Node();
      joinEvent := new Event();
      waitingEvent := null;
      waitingCancelled := false;
      closed := false;
    }
  }
}
