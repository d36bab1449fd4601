/** The registry of client tasks (src/se_libs.c): the ring `all_tasks` beside the rings of the
    scheduler, and the walk of interrupt_all_tasks that cancels the waits of the tasks on it. */
module TaskRegistry {
  import opened Seqs
  import opened Rings
  import opened Tasks
  import opened SeqScheduler
  import opened SchedulerInvariant
  import opened Interrupts
  import opened RingScheduler

  /** struct se_task_arg, without its cleanup list. */
  class TaskArg {
    const listNode: Node
    const task: Task
    const taskId: nat
    var interruptDisabled: bool
    var interruptReason: nat

    constructor (task: Task, taskId: nat)
      ensures fresh(listNode) && IsRing([listNode]) && this.task == task && this.taskId == taskId
      ensures !interruptDisabled && interruptReason == 0
    {
      listNode := new Node();
      this.task := task;
      this.taskId := taskId;
      interruptDisabled := false;
      interruptReason := 0;
    }
  }

  const SIZE_RANGE := 0x1_0000_0000_0000_0000   // of size_t

  /** The next task number, in the program's arithmetic. */
  function Following(n: nat): nat {
    (n + 1) % SIZE_RANGE
  }

  /** The next number counts the clients created so far, in the program's arithmetic. As long as it
      has not wrapped, the numbers of the registered clients grow along the ring and stay below it. */
  ghost predicate Numbered(order: seq<TaskArg>, taskSeq: nat, created: nat) {
    var grow := forall i, j :: 0 <= i < j < |order| ==> order[i].taskId < order[j].taskId;
    var below := forall i :: 0 <= i < |order| ==> 0 < order[i].taskId < taskSeq;
    && taskSeq == (created + 1) % SIZE_RANGE
    && (created <= SIZE_RANGE - 2 ==> grow && below)
  }

  /** So no two of them have the same number. */
  lemma NumbersDiffer(order: seq<TaskArg>, taskSeq: nat, created: nat, a: TaskArg, b: TaskArg)
    requires Numbered(order, taskSeq, created) && created <= SIZE_RANGE - 2 && a in order && b in order && a != b
    ensures a.taskId != b.taskId && a.taskId < taskSeq && b.taskId < taskSeq
  {
    var i :| 0 <= i < |order| && order[i] == a;
    var j :| 0 <= j < |order| && order[j] == b;
  }

  lemma NumberedAnd(order: seq<TaskArg>, taskSeq: nat, created: nat, arg: TaskArg)
    requires Numbered(order, taskSeq, created) && arg.taskId == taskSeq
    ensures Numbered(order + [arg], Following(taskSeq), created + 1)
  {
  }

  lemma NumberedCons(first: TaskArg, rest: seq<TaskArg>, taskSeq: nat, created: nat)
    requires created <= SIZE_RANGE - 2
    ensures Numbered([first] + rest, taskSeq, created) <==>
              && Numbered(rest, taskSeq, created) && 0 < first.taskId < taskSeq
              && forall a :: a in rest ==> first.taskId < a.taskId
  {
    var order := [first] + rest;
    assert forall i :: 0 < i < |order| ==> order[i] == rest[i - 1];
    if Numbered(order, taskSeq, created) {
      forall i, j | 0 <= i < j < |rest| ensures rest[i].taskId < rest[j].taskId {
        assert order[i + 1].taskId < order[j + 1].taskId;
      }
      forall i | 0 <= i < |rest| ensures 0 < rest[i].taskId < taskSeq && first.taskId < rest[i].taskId {
        assert order[0].taskId < order[i + 1].taskId < taskSeq;
      }
    }
  }

  lemma {:induction false} NumberedWithout(order: seq<TaskArg>, taskSeq: nat, created: nat, arg: TaskArg)
    requires Numbered(order, taskSeq, created)
    ensures Numbered(Without(order, arg), taskSeq, created)
    decreases |order|
  {
    if order != [] && created <= SIZE_RANGE - 2 {
      var first, rest := order[0], order[1..];
      assert order == [first] + rest;
      NumberedCons(first, rest, taskSeq, created);
      NumberedWithout(rest, taskSeq, created, arg);
      NumberedCons(first, Without(rest, arg), taskSeq, created);
    }
  }

  /** The clients have tasks and numbers of their own, as one fact. */
  ghost predicate InOrder(order: seq<TaskArg>, info: map<Task, Info>, taskSeq: nat, created: nat) {
    var inOrder := OwnTasks(order, info) && Numbered(order, taskSeq, created);
    inOrder
  }

  /** An entry as se_task_create fills it in. */
  ghost predicate New(arg: TaskArg, taskId: nat)
    reads arg
  {
    arg.taskId == taskId && !arg.interruptDisabled && arg.interruptReason == 0
  }

  ghost function ListNodes(order: seq<TaskArg>): (r: seq<Node>)
    ensures |r| == |order|
    ensures forall i :: 0 <= i < |order| ==> r[i] == order[i].listNode
  {
    if order == [] then [] else [order[0].listNode] + ListNodes(order[1..])
  }

  /** The registry's ring, as the shape of a heap that has only this one. */
  ghost function RingShape(head: Node, order: seq<TaskArg>): Shape {
    map[head := ListNodes(order)]
  }

  /** The tasks an interrupt reaches, in registry order, when those of `disabled` refuse it. */
  ghost function Targets(order: seq<TaskArg>, disabled: set<TaskArg>): seq<Task> {
    if order == [] then []
    else (if order[0] in disabled then [] else [order[0].task]) + Targets(order[1..], disabled)
  }

  /** Every registered task is one the scheduler knows, and no two entries share a task. */
  ghost predicate OwnTasks(order: seq<TaskArg>, info: map<Task, Info>) {
    var known := forall a :: a in order ==> a.task in info;
    var apart := forall i, j :: 0 <= i < j < |order| ==> order[i].task != order[j].task;
    known && apart
  }

  /** No task that an interrupt would reach is running or has ended without being reaped. */
  ghost predicate NoneGone(s: State, order: seq<TaskArg>, disabled: set<TaskArg>)
    requires OwnTasks(order, s.info)
  {
    forall a :: a in order && a !in disabled ==> a.task != s.current && !s.info[a.task].closed
  }

  ghost predicate Reaches(order: seq<TaskArg>, disabled: set<TaskArg>, t: Task) {
    exists a :: a in order && a !in disabled && a.task == t
  }

  lemma {:induction false} TargetsAre(order: seq<TaskArg>, disabled: set<TaskArg>, info: map<Task, Info>)
    requires OwnTasks(order, info)
    ensures Distinct(Targets(order, disabled))
    ensures forall t :: t in Targets(order, disabled) ==> Reaches(order, disabled, t)
    ensures forall a :: a in order && a !in disabled ==> a.task in Targets(order, disabled)
  {
    if order != [] {
      var first, rest := order[0], order[1..];
      assert order == [first] + rest;
      assert OwnTasks(rest, info) by {
        assert forall i :: 0 <= i < |rest| ==> rest[i] == order[i + 1];
      }
      TargetsAre(rest, disabled, info);
      assert forall a :: a in rest ==> a.task != first.task;
      DistinctConcat([first.task], Targets(rest, disabled));
    }
  }

  /** What interrupt_all_tasks does to the scheduler. It stays sound exactly when nobody it
      reaches is running or has ended; and then the tasks it reaches are the end of the ready
      queue, in registry order and flagged, and everybody else is where they were. */
  lemma InterruptAllKeeps(s: State, order: seq<TaskArg>, disabled: set<TaskArg>)
    requires Inv(s) && OwnTasks(order, s.info)
    ensures Inv(CancelAll(s, Targets(order, disabled))) <==> NoneGone(s, order, disabled)
    ensures NoneGone(s, order, disabled) ==>
              AllRequeued(s, Targets(order, disabled), CancelAll(s, Targets(order, disabled)))
  {
    var ts := Targets(order, disabled);
    TargetsAre(order, disabled, s.info);
    assert forall t :: t in ts ==> Reaches(order, disabled, t);
    InterruptsKeepInvIff(s, ts);
    if NoneGone(s, order, disabled) {
      CancelAllRequeues(s, ts);
    } else {
      var a :| a in order && a !in disabled && (a.task == s.current || s.info[a.task].closed);
      assert a.task in ts;
    }
  }

  lemma OwnTasksCons(first: TaskArg, rest: seq<TaskArg>, info: map<Task, Info>)
    ensures OwnTasks([first] + rest, info) <==>
              first.task in info && OwnTasks(rest, info) && forall a :: a in rest ==> a.task != first.task
  {
    var order := [first] + rest;
    assert forall i :: 0 < i < |order| ==> order[i] == rest[i - 1];
    if OwnTasks(order, info) {
      forall a | a in rest ensures a.task in info && a.task != first.task {
        var i :| 0 <= i < |rest| && rest[i] == a;
        assert order[0].task != order[i + 1].task && order[i + 1] in order;
      }
      forall i, j | 0 <= i < j < |rest| ensures rest[i].task != rest[j].task {
        assert order[i + 1].task != order[j + 1].task;
      }
      assert order[0] in order;
    }
  }

  lemma {:induction false} OwnTasksWithout(order: seq<TaskArg>, arg: TaskArg, info: map<Task, Info>)
    requires OwnTasks(order, info)
    ensures OwnTasks(Without(order, arg), info)
  {
    if order != [] {
      var first, rest := order[0], order[1..];
      assert order == [first] + rest;
      OwnTasksCons(first, rest, info);
      OwnTasksWithout(rest, arg, info);
      OwnTasksCons(first, Without(rest, arg), info);
    }
  }

  lemma OwnTasksCreated(order: seq<TaskArg>, arg: TaskArg, s: State)
    requires OwnTasks(order, s.info) && arg.task !in s.info
    ensures OwnTasks(order + [arg], DoCreate(s, arg.task).info)
  {
    assert forall i :: 0 <= i < |order| ==> order[i] in order;
  }

  lemma CreateSound(s: State, t: Task)
    requires t !in s.info && t.joinEvent !in s.waiters
    ensures Sound(s) ==> Sound(DoCreate(s, t))
  {
    if Sound(s) {
      CreateInv(s, t);
    }
  }

  /** What se_task_create does to all this. */
  lemma InOrderCreated(order: seq<TaskArg>, s: State, taskSeq: nat, created: nat, arg: TaskArg)
    requires InOrder(order, s.info, taskSeq, created) && arg.task !in s.info && arg.task.joinEvent !in s.waiters
    requires arg.taskId == taskSeq
    ensures InOrder(order + [arg], DoCreate(s, arg.task).info, Following(taskSeq), created + 1)
  {
    OwnTasksCreated(order, arg, s);
    NumberedAnd(order, taskSeq, created, arg);
  }

  lemma OwnTasksMore(order: seq<TaskArg>, info: map<Task, Info>, info': map<Task, Info>)
    requires OwnTasks(order, info) && info.Keys <= info'.Keys
    ensures OwnTasks(order, info')
  {
  }

  lemma OwnTasksSame(order: seq<TaskArg>, info: map<Task, Info>, info': map<Task, Info>)
    requires OwnTasks(order, info) && info'.Keys == info.Keys
    ensures OwnTasks(order, info')
  {
  }

  lemma ListNodesConcat(p: seq<TaskArg>, q: seq<TaskArg>)
    ensures ListNodes(p + q) == ListNodes(p) + ListNodes(q)
  {
  }

  lemma {:induction false} ListNodesWithout(order: seq<TaskArg>, arg: TaskArg)
    requires forall a :: a in order && a.listNode == arg.listNode ==> a == arg
    ensures Without(ListNodes(order), arg.listNode) == ListNodes(Without(order, arg))
  {
    if order != [] {
      var first, rest := order[0], order[1..];
      ListNodesWithout(rest, arg);
      assert first in order && ListNodes(order)[0] == first.listNode && ListNodes(order)[1..] == ListNodes(rest);
      assert ([first] + Without(rest, arg))[1..] == Without(rest, arg);
    }
  }

  lemma InRing(order: seq<TaskArg>, arg: TaskArg)
    requires arg in order
    ensures arg.listNode in ListNodes(order)
  {
    var i :| 0 <= i < |order| && order[i] == arg;
    assert ListNodes(order)[i] == arg.listNode;
  }

  lemma JoinLast(head: Node, xs: seq<Node>, m: Node)
    requires m != head
    ensures Join(map[head := xs][m := []], head, m) == map[head := xs + [m]]
  {
    assert xs + [m] + [] == xs + [m];
  }

  /** Detaching a member of the only ring there is. */
  method DetachOnly(head: Node, ghost xs: seq<Node>, n: Node, ghost nodes: set<Node>)
    requires Shaped(map[head := xs], nodes) && n in xs
    modifies nodes
    ensures Shaped(map[head := Without(xs, n)], nodes)
  {
    ghost var g := map[head := xs];
    assert n != head by {
      assert RingAt(g, head) == [head] + xs;
      DistinctConcat([head], xs);
      assert head in [head];
    }
    assert n in RingAt(g, head);
    Detach(n, g, nodes);
    ShapedWithout(Unlink(g, n), nodes, n);
    assert Unlink(g, n) - {n} == map[head := Without(xs, n)];
  }

  /** The ring at `head` has the list nodes of `order`, whose entries `args` finds again. */
  ghost predicate Ring(head: Node, args: map<Node, TaskArg>, order: seq<TaskArg>)
    reads {head} + args.Keys
  {
    var known := Found(order, args);
    var ring := Shaped(RingShape(head, order), {head} + args.Keys);
    var ok := known && ring;
    ok
  }

  // ----- a new client

  method AttachEntry(head: Node, arg: TaskArg, ghost order: seq<TaskArg>, ghost nodes: set<Node>)
    requires Shaped(RingShape(head, order), nodes) && arg.listNode !in nodes
    modifies nodes, arg.listNode
    ensures Shaped(RingShape(head, order + [arg]), nodes + {arg.listNode})
  {
    ghost var g := RingShape(head, order);
    ListNodesConcat(order, [arg]);
    assert ListNodes([arg]) == [arg.listNode];
    InitAlone(arg.listNode, g, nodes);
    assert head in g && arg.listNode != head by { assert head in RingAt(g, head); }
    JoinLast(head, ListNodes(order), arg.listNode);
    Attach(head, arg.listNode, g[arg.listNode := []], nodes + {arg.listNode});
  }

  /** The new entry leaves the scheduler and the registry's fields alone. */
  method AttachFor(ghost r: Registry, ghost scheduler: Scheduler, head: Node, arg: TaskArg, ghost order: seq<TaskArg>, ghost nodes: set<Node>)
    requires Beside(scheduler, RingShape(head, order), nodes) && arg.listNode !in nodes && arg.listNode !in scheduler.places
    modifies nodes, arg.listNode
    ensures Beside(scheduler, RingShape(head, order + [arg]), nodes + {arg.listNode})
    ensures r.order == old(r.order) && r.args == old(r.args)
    ensures r.taskSeq == old(r.taskSeq) && r.created == old(r.created)
    ensures scheduler.model == old(scheduler.model)
    ensures arg.interruptDisabled == old(arg.interruptDisabled) && arg.interruptReason == old(arg.interruptReason)
  {
    AttachEntry(head, arg, order, nodes);
  }

  /** s_task_create leaves the registry alone. */
  method SpawnFor(ghost r: Registry, scheduler: Scheduler, ghost ring: Shape, ghost nodes: set<Node>) returns (t: Task)
    requires Beside(scheduler, ring, nodes)
    modifies scheduler`model, scheduler`places, scheduler.places.Keys
    ensures Beside(scheduler, ring, nodes) && r.order == old(r.order) && r.args == old(r.args) && fresh(t)
    ensures r.taskSeq == old(r.taskSeq) && r.created == old(r.created)
    ensures t !in old(scheduler.model.info) && t.joinEvent !in old(scheduler.model.waiters)
    ensures scheduler.model == DoCreate(old(scheduler.model), t)
  {
    t := scheduler.Spawn();
  }

  method Enter(r: Registry, arg: TaskArg, ghost ring: Shape, ghost nodes: set<Node>)
    requires Beside(r.scheduler, ring, nodes)
    modifies r`args, r`order, r`taskSeq, r`created
    ensures Beside(r.scheduler, ring, nodes) && r.taskSeq == Following(old(r.taskSeq)) && r.created == old(r.created) + 1
    ensures r.args == old(r.args)[arg.listNode := arg] && r.order == old(r.order) + [arg]
  {
    r.taskSeq, r.created := Following(r.taskSeq), r.created + 1;
    r.args := r.args[arg.listNode := arg];
    r.order := r.order + [arg];
  }

  lemma FoundWith(order: seq<TaskArg>, args: map<Node, TaskArg>, head: Node, arg: TaskArg)
    requires Found(order, args) && arg.listNode !in args
    ensures Found(order + [arg], args[arg.listNode := arg])
    ensures {head} + args[arg.listNode := arg].Keys == {head} + args.Keys + {arg.listNode}
  {
  }

  lemma FoundWithout(order: seq<TaskArg>, args: map<Node, TaskArg>, arg: TaskArg)
    requires Found(order, args)
    ensures Found(Without(order, arg), args)
  {
    var rest := Without(order, arg);
    forall j | 0 <= j < |rest| ensures rest[j].listNode in args && args[rest[j].listNode] == rest[j] {
      assert rest[j] in order;
    }
  }

  /** The new entry is the last on the ring. */
  method Register(r: Registry, arg: TaskArg, ghost nodes: set<Node>)
    requires Beside(r.scheduler, RingShape(r.allTasks, r.order), nodes) && nodes == {r.allTasks} + r.args.Keys
    requires arg.listNode !in nodes && arg.listNode !in r.scheduler.places
    modifies r`args, r`order, r`taskSeq, r`created, nodes, arg.listNode
    ensures Beside(r.scheduler, RingShape(r.allTasks, r.order), nodes + {arg.listNode})
    ensures r.args == old(r.args)[arg.listNode := arg] && r.order == old(r.order) + [arg]
    ensures arg.interruptDisabled == old(arg.interruptDisabled) && arg.interruptReason == old(arg.interruptReason)
    ensures r.scheduler.model == old(r.scheduler.model)
    ensures r.taskSeq == Following(old(r.taskSeq)) && r.created == old(r.created) + 1
  {
    ghost var order := r.order;
    AttachFor(r, r.scheduler, r.allTasks, arg, order, nodes);
    Enter(r, arg, RingShape(r.allTasks, order + [arg]), nodes + {arg.listNode});
  }

  // ----- the scheduler's own steps

  /** A step of the scheduler leaves the other ring alone. */
  method PerformBeside(scheduler: Scheduler, step: Step, at: Control, ghost ring: Shape, ghost nodes: set<Node>)
    requires Beside(scheduler, ring, nodes) && Sound(scheduler.model) && Enabled(scheduler.model, step)
    requires scheduler.Brings(step) && nodes !! Scheduler.BroughtNodes(step)
    requires at == scheduler.model.info[scheduler.currentTask].control
    modifies scheduler`model, scheduler`currentTask, scheduler`places, scheduler.places.Keys
    modifies scheduler.model.info.Keys, Scheduler.Brought(step)
    ensures Beside(scheduler, ring, nodes) && Sound(scheduler.model) && scheduler.model == Apply(old(scheduler.model), step)
  {
    scheduler.Perform(step, at);
  }

  /** Nor does it touch the registry's fields; `goal` is where it leads. */
  method PerformFor(ghost r: Registry, scheduler: Scheduler, step: Step, at: Control, ghost ring: Shape, ghost nodes: set<Node>,
                    ghost goal: State)
    requires Beside(scheduler, ring, nodes) && Sound(scheduler.model) && Enabled(scheduler.model, step)
    requires scheduler.Brings(step) && nodes !! Scheduler.BroughtNodes(step) && goal == Apply(scheduler.model, step)
    requires at == scheduler.model.info[scheduler.currentTask].control
    modifies scheduler`model, scheduler`currentTask, scheduler`places, scheduler.places.Keys
    modifies scheduler.model.info.Keys, Scheduler.Brought(step)
    ensures Beside(scheduler, ring, nodes) && Sound(scheduler.model) && scheduler.model == goal
    ensures r.order == old(r.order) && r.args == old(r.args)
    ensures r.taskSeq == old(r.taskSeq) && r.created == old(r.created)
  {
    ghost var self: object := r;
    assert self !in Scheduler.Brought(step) && self !in scheduler.places.Keys && self !in scheduler.model.info.Keys;
    PerformBeside(scheduler, step, at, ring, nodes);
  }

  // ----- interrupts, one task after the other

  /** The scheduler is in order, and beside it there is a ring of other nodes. */
  ghost predicate Beside(scheduler: Scheduler, ring: Shape, nodes: set<Node>)
    reads scheduler, scheduler.places.Keys, scheduler.model.info.Keys, nodes
  {
    var beside := scheduler.Valid() && Shaped(ring, nodes) && nodes !! scheduler.places.Keys;
    beside
  }

  /** s_task_cancel_wait leaves the other ring alone. */
  method CancelBeside(scheduler: Scheduler, arg: TaskArg, ghost ring: Shape, ghost nodes: set<Node>)
    requires Beside(scheduler, ring, nodes) && arg.task in scheduler.model.info && EventsKnown(scheduler.model)
    modifies scheduler`model, scheduler.places.Keys, scheduler.currentTask, arg.task
    ensures Beside(scheduler, ring, nodes) && scheduler.places == old(scheduler.places)
    ensures scheduler.model == DoCancel(old(scheduler.model), arg.task)
  {
    scheduler.CancelWait(arg.task);
  }

  /** The first `i` clients have been told `reason`, except those of `refusing`, who still have
      the reason they had then. */
  ghost predicate Told(order: seq<TaskArg>, i: nat, reason: nat, refusing: map<TaskArg, nat>)
    reads order
  {
    var told := forall j :: 0 <= j < i && j < |order| && order[j] !in refusing ==> order[j].interruptReason == reason;
    var kept := forall j :: 0 <= j < |order| && order[j] in refusing ==>
                  order[j].interruptReason == refusing[order[j]];
    var refuse := forall j :: 0 <= j < |order| ==> (order[j].interruptDisabled <==> order[j] in refusing);
    var all := told && kept && refuse;
    all
  }

  /** It leaves the entries of the registry alone as well. */
  method CancelTold(scheduler: Scheduler, arg: TaskArg, reason: nat, ghost i: nat, ghost refusing: map<TaskArg, nat>,
                    ghost order: seq<TaskArg>, ghost ring: Shape, ghost nodes: set<Node>)
    requires Beside(scheduler, ring, nodes) && arg.task in scheduler.model.info && EventsKnown(scheduler.model)
    requires Told(order, i, reason, refusing)
    modifies scheduler`model, scheduler.places.Keys, scheduler.currentTask, arg.task
    ensures Beside(scheduler, ring, nodes) && scheduler.places == old(scheduler.places)
    ensures scheduler.model == DoCancel(old(scheduler.model), arg.task)
    ensures Told(order, i, reason, refusing)
  {
    CancelBeside(scheduler, arg, ring, nodes);
  }

  method Tell(arg: TaskArg, reason: nat, ghost i: nat, ghost refusing: map<TaskArg, nat>,
              ghost order: seq<TaskArg>, ghost scheduler: Scheduler, ghost ring: Shape, ghost nodes: set<Node>)
    requires i < |order| && arg == order[i] && arg !in refusing && Told(order, i, reason, refusing)
    requires Beside(scheduler, ring, nodes)
    modifies arg`interruptReason
    ensures Told(order, i + 1, reason, refusing) && Beside(scheduler, ring, nodes)
  {
    arg.interruptReason := reason;
  }

  // ----- the walk around the ring

  /** The node `i` places around the ring at `head`. */
  ghost function NodeAt(head: Node, order: seq<TaskArg>, i: nat): Node
    requires i <= |order|
  {
    if i == |order| then head else order[i].listNode
  }

  method ReadFirst(head: Node, ghost order: seq<TaskArg>, ghost nodes: set<Node>) returns (node: Node)
    requires Shaped(RingShape(head, order), nodes)
    ensures node == NodeAt(head, order, 0) && (node == head <==> order == [])
  {
    FirstSteps(RingShape(head, order), nodes, head);
    node := head.next;
  }

  method ReadNext(head: Node, node: Node, ghost order: seq<TaskArg>, ghost nodes: set<Node>, ghost i: nat) returns (next: Node)
    requires Shaped(RingShape(head, order), nodes) && i < |order| && node == NodeAt(head, order, i)
    ensures next == NodeAt(head, order, i + 1) && (next == head <==> i + 1 == |order|)
  {
    ghost var r := RingAt(RingShape(head, order), head);
    assert r[0] == head && i + 2 < |r| ==> r[i + 2] != head;
    assert r[i + 1] == node;
    assert i + 2 < |r| ==> After(r, i + 1) == r[i + 2];
    next := node.next;
  }

  /** One interrupt in a course of states: what the `i`-th client makes of `course[i]`. */
  ghost predicate InterruptAt(course: seq<State>, order: seq<TaskArg>, refusing: set<TaskArg>, i: nat)
    requires i < |order| < |course|
  {
    var s, a := course[i], order[i];
    && s.current in s.info && a.task in s.info && EventsKnown(s)
    && course[i + 1] == Interrupt(s, a in refusing, a.task)
  }

  /** What the scheduler goes through while the clients are interrupted, one after the other. */
  ghost predicate IsCourse(course: seq<State>, order: seq<TaskArg>, refusing: set<TaskArg>) {
    && |course| == |order| + 1
    && var each := forall i {:trigger InterruptAt(course, order, refusing, i)} :: 0 <= i < |order| ==>
                     InterruptAt(course, order, refusing, i);
       each
  }

  /** All the while the scheduler knows the same tasks, and the clients' are among them. */
  ghost predicate SameTasks(course: seq<State>, order: seq<TaskArg>) {
    var same := forall i :: 0 <= i < |course| ==> course[i].info.Keys == course[0].info.Keys;
    var theirs := forall i :: 0 <= i < |order| ==> course != [] && order[i].task in course[0].info;
    same && theirs
  }

  lemma SameTasksAt(course: seq<State>, order: seq<TaskArg>, i: nat)
    requires SameTasks(course, order) && i < |order| && i < |course|
    ensures course[i].info.Keys == course[0].info.Keys && order[i].task in course[0].info
  {
  }

  lemma LaterAt(s: State, order: seq<TaskArg>, refusing: set<TaskArg>, more: seq<State>, i: nat)
    requires 0 < i < |order| == |more| && InterruptAt(more, order[1..], refusing, i - 1)
    ensures InterruptAt([s] + more, order, refusing, i)
  {
  }

  lemma FirstAt(s: State, order: seq<TaskArg>, refusing: set<TaskArg>, more: seq<State>)
    requires order != [] && |more| == |order| && s.current in s.info && order[0].task in s.info && EventsKnown(s)
    requires more[0] == Interrupt(s, order[0] in refusing, order[0].task)
    ensures InterruptAt([s] + more, order, refusing, 0)
  {
  }

  lemma LongerCourse(s: State, order: seq<TaskArg>, refusing: set<TaskArg>, more: seq<State>)
    requires order != [] && s.current in s.info && order[0].task in s.info && EventsKnown(s)
    requires IsCourse(more, order[1..], refusing) && more[0] == Interrupt(s, order[0] in refusing, order[0].task)
    ensures IsCourse([s] + more, order, refusing)
  {
    forall i | 0 <= i < |order| ensures InterruptAt([s] + more, order, refusing, i) {
      if i == 0 {
        FirstAt(s, order, refusing, more);
      } else {
        assert InterruptAt(more, order[1..], refusing, i - 1);
        LaterAt(s, order, refusing, more, i);
      }
    }
  }

  lemma LastStays(s: State, more: seq<State>)
    requires more != []
    ensures var course := [s] + more; course[0] == s && course[|course| - 1] == more[|more| - 1]
  {
  }

  lemma LongerSame(s: State, order: seq<TaskArg>, more: seq<State>)
    requires order != [] && order[0].task in s.info && more != [] && more[0].info.Keys == s.info.Keys
    requires SameTasks(more, order[1..])
    ensures SameTasks([s] + more, order)
  {
    var course := [s] + more;
    forall i | 0 <= i < |course| ensures course[i].info.Keys == course[0].info.Keys {
      assert i > 0 ==> course[i] == more[i - 1];
    }
    forall i | 0 <= i < |order| ensures order[i].task in course[0].info {
      assert i > 0 ==> order[i] == order[1..][i - 1];
    }
  }

  /** What the first client makes of `s`. */
  lemma FirstStep(s: State, order: seq<TaskArg>, refusing: set<TaskArg>) returns (s1: State)
    requires s.current in s.info && EventsKnown(s) && order != [] && order[0].task in s.info
    ensures s1 == Interrupt(s, order[0] in refusing, order[0].task)
    ensures s1.current in s1.info && EventsKnown(s1) && s1.info.Keys == s.info.Keys
    ensures CancelAll(s1, Targets(order[1..], refusing)) == CancelAll(s, Targets(order, refusing))
  {
    var refuses, t := order[0] in refusing, order[0].task;
    s1 := Interrupt(s, refuses, t);
    InterruptKeeps(s, refuses, t);
    InterruptStep(s, refuses, t, Targets(order[1..], refusing));
  }

  ghost predicate TasksKnown(order: seq<TaskArg>, info: map<Task, Info>) {
    var known := forall i :: 0 <= i < |order| ==> order[i].task in info;
    known
  }

  lemma TasksKnownRest(order: seq<TaskArg>, info: map<Task, Info>, info': map<Task, Info>)
    requires order != [] && TasksKnown(order, info) && info'.Keys == info.Keys
    ensures order[0].task in info && TasksKnown(order[1..], info')
  {
    assert forall i :: 0 <= i < |order[1..]| ==> order[1..][i] == order[i + 1];
  }

  /** `course` runs from `s` to where all clients have been interrupted. */
  ghost predicate CourseFrom(course: seq<State>, s: State, order: seq<TaskArg>, refusing: set<TaskArg>) {
    && IsCourse(course, order, refusing) && SameTasks(course, order) && s.current in s.info
    && var ends := course[0] == s && course[|order|] == CancelAll(s, Targets(order, refusing));
       ends
  }

  lemma CourseLonger(s: State, order: seq<TaskArg>, refusing: set<TaskArg>, s1: State, more: seq<State>)
    requires order != [] && s.current in s.info && order[0].task in s.info && EventsKnown(s) && s1.info.Keys == s.info.Keys
    requires s1 == Interrupt(s, order[0] in refusing, order[0].task) && CourseFrom(more, s1, order[1..], refusing)
    requires CancelAll(s1, Targets(order[1..], refusing)) == CancelAll(s, Targets(order, refusing))
    ensures CourseFrom([s] + more, s, order, refusing)
  {
    LongerCourse(s, order, refusing, more);
    LongerSame(s, order, more);
    LastStays(s, more);
  }

  lemma {:induction false} MakeCourse(s: State, order: seq<TaskArg>, refusing: set<TaskArg>) returns (course: seq<State>)
    requires s.current in s.info && EventsKnown(s) && TasksKnown(order, s.info)
    ensures CourseFrom(course, s, order, refusing)
    decreases |order|
  {
    if order == [] {
      course := [s];
    } else {
      TasksKnownRest(order, s.info, s.info);
      var s1 := FirstStep(s, order, refusing);
      TasksKnownRest(order, s.info, s1.info);
      var more := MakeCourse(s1, order[1..], refusing);
      CourseLonger(s, order, refusing, s1, more);
      course := [s] + more;
    }
  }

  /** interrupt_task for the `i`-th client: one that refuses stays as it is; any other is given
      the reason and the wait of its task is cancelled. */
  method InterruptTask(scheduler: Scheduler, arg: TaskArg, reason: nat, ghost i: nat, ghost refusing: map<TaskArg, nat>,
                       ghost order: seq<TaskArg>, ghost ring: Shape, ghost nodes: set<Node>, ghost course: seq<State>)
    requires IsCourse(course, order, refusing.Keys) && i < |order| && scheduler.model == course[i]
    requires Beside(scheduler, ring, nodes) && arg == order[i] && Told(order, i, reason, refusing)
    modifies arg`interruptReason, scheduler`model, scheduler.places.Keys, scheduler.currentTask, arg.task
    ensures Beside(scheduler, ring, nodes) && scheduler.places == old(scheduler.places)
    ensures scheduler.model == course[i + 1] && Told(order, i + 1, reason, refusing)
  {
    assert InterruptAt(course, order, refusing.Keys, i);
    if arg.interruptDisabled {
      return;
    }
    Tell(arg, reason, i, refusing, order, scheduler, ring, nodes);
    CancelTold(scheduler, arg, reason, i + 1, refusing, order, ring, nodes);
  }

  /** One turn of the loop of interrupt_all_tasks. */
  method InterruptTurn(scheduler: Scheduler, head: Node, node: Node, args: map<Node, TaskArg>, reason: nat, ghost i: nat,
                       ghost refusing: map<TaskArg, nat>, ghost order: seq<TaskArg>, ghost nodes: set<Node>,
                       ghost course: seq<State>) returns (next: Node)
    requires IsCourse(course, order, refusing.Keys) && i < |order| && scheduler.model == course[i]
    requires Beside(scheduler, RingShape(head, order), nodes) && Told(order, i, reason, refusing)
    requires node == NodeAt(head, order, i) && node in args && args[node] == order[i]
    modifies {order[i]}`interruptReason, scheduler`model, scheduler.places.Keys, scheduler.currentTask, order[i].task
    ensures Beside(scheduler, RingShape(head, order), nodes) && scheduler.places == old(scheduler.places)
    ensures Told(order, i + 1, reason, refusing) && scheduler.model == course[i + 1]
    ensures next == NodeAt(head, order, i + 1) && (next == head <==> i + 1 == |order|)
  {
    next := ReadNext(head, node, order, nodes, i);
    InterruptTask(scheduler, args[node], reason, i, refusing, order, RingShape(head, order), nodes, course);
  }

  /** `args` finds the entry of every list node. */
  ghost predicate Found(order: seq<TaskArg>, args: map<Node, TaskArg>) {
    forall j :: 0 <= j < |order| ==> order[j].listNode in args && args[order[j].listNode] == order[j]
  }

  /** The loop of interrupt_all_tasks; `course` is what it does to the scheduler. */
  method InterruptRing(scheduler: Scheduler, head: Node, args: map<Node, TaskArg>, reason: nat, ghost order: seq<TaskArg>,
                       ghost nodes: set<Node>, ghost refusing: map<TaskArg, nat>, ghost course: seq<State>)
    requires Beside(scheduler, RingShape(head, order), nodes) && Found(order, args) && Told(order, 0, reason, refusing)
    requires IsCourse(course, order, refusing.Keys) && SameTasks(course, order) && scheduler.model == course[0]
    modifies order`interruptReason, scheduler`model, scheduler.places.Keys, scheduler.model.info.Keys
    ensures Beside(scheduler, RingShape(head, order), nodes) && Told(order, |order|, reason, refusing)
    ensures scheduler.model == course[|order|]
  {
    ghost var places := scheduler.places;
    ghost var i: nat := 0;
    var node := ReadFirst(head, order, nodes);
    while node != head
      invariant i <= |order| && node == NodeAt(head, order, i) && (node == head <==> i == |order|)
      invariant Beside(scheduler, RingShape(head, order), nodes) && scheduler.places == places
      invariant Told(order, i, reason, refusing) && scheduler.model == course[i]
      decreases |order| - i
    {
      SameTasksAt(course, order, i);
      node := InterruptTurn(scheduler, head, node, args, reason, i, refusing, order, nodes, course);
      i := i + 1;
    }
  }

  class Registry {
    const allTasks: Node
    const scheduler: Scheduler
    var args: map<Node, TaskArg>
    var taskSeq: nat                // g_task_seq
    ghost var order: seq<TaskArg>
    ghost var created: nat          // clients created so far

    /** The ring of list nodes is in the order of registration. */
    ghost predicate RingOk()
      reads `args, `order, {allTasks} + args.Keys
    {
      Ring(allTasks, args, order)
    }

    /** The registry and the scheduler are in order and have no node in common. */
    ghost predicate Coupled()
      reads `args, `order, {allTasks} + args.Keys, scheduler, scheduler.places.Keys, scheduler.model.info.Keys
    {
      var apart := allTasks !in scheduler.places && forall n :: n in args ==> n !in scheduler.places;
      var coupled := RingOk() && apart && scheduler.Valid();
      coupled
    }

    /** Folding `Coupled`, where order and ring are still those of `clients`. */
    lemma Couple(clients: seq<TaskArg>, entries: map<Node, TaskArg>)
      requires order == clients && args == entries && Found(clients, entries)
      requires Beside(scheduler, RingShape(allTasks, clients), {allTasks} + entries.Keys)
      ensures Coupled()
    {
    }

    ghost predicate Valid()
      reads this, {allTasks} + args.Keys, scheduler, scheduler.places.Keys, scheduler.model.info.Keys
    {
      Coupled() && InOrder(order, scheduler.model.info, taskSeq, created)
    }

    constructor (scheduler: Scheduler)
      requires scheduler.Valid()
      ensures Valid() && order == [] && this.scheduler == scheduler && fresh(allTasks) && args == map[]
      ensures taskSeq == 1 && created == 0
    {
      var head := new Node();
      allTasks, this.scheduler, args, order, taskSeq, created := head, scheduler, map[], [], 1, 0;
      new;
      assert RingAt(RingShape(allTasks, []), allTasks) == [head];
    }

    /** s_task_create for a new record, seen from the registry. */
    method NewTask() returns (t: Task)
      requires Coupled()
      modifies scheduler`model, scheduler`places, scheduler.places.Keys
      ensures Coupled() && fresh(t) && order == old(order) && taskSeq == old(taskSeq) && created == old(created)
      ensures t !in old(scheduler.model.info) && t.joinEvent !in old(scheduler.model.waiters)
      ensures scheduler.model == DoCreate(old(scheduler.model), t)
    {
      ghost var clients, entries := order, args;
      assert Found(clients, entries);
      t := SpawnFor(this, scheduler, RingShape(allTasks, order), {allTasks} + args.Keys);
      Couple(clients, entries);
    }

    /** A new entry for a task, with the next number; it is the last on the ring. */
    method NewArg(task: Task) returns (arg: TaskArg)
      requires Coupled()
      modifies `args, `order, `taskSeq, `created, {allTasks} + args.Keys
      ensures Coupled() && scheduler.model == old(scheduler.model)
      ensures fresh(arg) && arg.task == task && order == old(order) + [arg]
      ensures New(arg, old(taskSeq)) && taskSeq == Following(old(taskSeq)) && created == old(created) + 1
    {
      ghost var clients, entries := order, args;
      arg := new TaskArg(task, taskSeq);
      FoundWith(clients, entries, allTasks, arg);
      Register(this, arg, {allTasks} + entries.Keys);
      Couple(clients + [arg], entries[arg.listNode := arg]);
    }

    /** se_task_create where there is memory for the client and its stack. */
    method CreateWith() returns (arg: TaskArg)
      requires Valid()
      modifies `args, `order, `taskSeq, `created, {allTasks} + args.Keys, scheduler`model, scheduler`places, scheduler.places.Keys
      ensures Valid() && fresh(arg) && order == old(order) + [arg]
      ensures New(arg, old(taskSeq)) && created == old(created) + 1
      ensures arg.task !in old(scheduler.model.info) && arg.task.joinEvent !in old(scheduler.model.waiters)
      ensures scheduler.model == DoCreate(old(scheduler.model), arg.task)
    {
      ghost var clients, before, number, count := order, scheduler.model, taskSeq, created;
      arg := NewClient();
      Settle(clients, before, number, count, arg);
    }

    /** Folding `Valid` once `arg` is there. */
    lemma Settle(clients: seq<TaskArg>, before: State, number: nat, count: nat, arg: TaskArg)
      requires Coupled() && InOrder(clients, before.info, number, count)
      requires arg.task !in before.info && arg.task.joinEvent !in before.waiters && arg.taskId == number
      requires order == clients + [arg] && scheduler.model == DoCreate(before, arg.task)
      requires taskSeq == Following(number) && created == count + 1
      ensures Valid()
    {
      InOrderCreated(clients, before, number, count, arg);
    }

    /** Both rings; the task is linked before the client here, and nothing looks at them in between. */
    method NewClient() returns (arg: TaskArg)
      requires Coupled()
      modifies `args, `order, `taskSeq, `created, {allTasks} + args.Keys, scheduler`model, scheduler`places, scheduler.places.Keys
      ensures Coupled() && fresh(arg) && order == old(order) + [arg]
      ensures New(arg, old(taskSeq)) && taskSeq == Following(old(taskSeq)) && created == old(created) + 1
      ensures arg.task !in old(scheduler.model.info) && arg.task.joinEvent !in old(scheduler.model.waiters)
      ensures scheduler.model == DoCreate(old(scheduler.model), arg.task)
    {
      var task := NewTask();
      arg := NewArg(task);
    }

    /** se_task_create; `memory` is whether malloc succeeds. If so, a client with the next number,
        that takes interrupts and has no reason yet, is the last on the ring, and its task the last
        of the ready queue. If not, nothing has changed. */
    method CreateTask(memory: bool) returns (arg: TaskArg?)
      requires Valid()
      modifies `args, `order, `taskSeq, `created, {allTasks} + args.Keys, scheduler`model, scheduler`places, scheduler.places.Keys
      ensures Valid() && (arg != null <==> memory)
      ensures arg != null ==> fresh(arg) && order == old(order) + [arg]
      ensures arg != null ==> New(arg, old(taskSeq)) && created == old(created) + 1
      ensures arg != null ==> scheduler.model == DoCreate(old(scheduler.model), arg.task)
      ensures Sound(old(scheduler.model)) ==> Sound(scheduler.model)
      ensures arg == null ==> order == old(order) && taskSeq == old(taskSeq) && created == old(created)
      ensures arg == null ==> scheduler.model == old(scheduler.model)
    {
      if !memory {
        return null;
      }
      ghost var before := scheduler.model;
      arg := CreateWith();
      CreateSound(before, arg.task);
    }

    /** se_task_end_handler: the client is off the ring. */
    method Reap(arg: TaskArg)
      requires Valid() && arg in order
      modifies `order, {allTasks} + args.Keys
      ensures Valid() && order == Without(old(order), arg) && scheduler.model == old(scheduler.model)
    {
      OwnTasksWithout(order, arg, scheduler.model.info);
      NumberedWithout(order, taskSeq, created, arg);
      Unregister(arg);
    }

    method Unregister(arg: TaskArg)
      requires RingOk() && arg in order
      modifies `order, {allTasks} + args.Keys
      ensures RingOk() && order == Without(old(order), arg)
    {
      ghost var g, nodes := RingShape(allTasks, order), {allTasks} + args.Keys;
      FoundWithout(order, args, arg);
      ListNodesWithout(order, arg);
      InRing(order, arg);
      DetachOnly(allTasks, ListNodes(order), arg.listNode, nodes);
      order := Without(order, arg);
    }

    /** is_task_empty */
    method IsTaskEmpty() returns (empty: bool)
      requires RingOk()
      ensures empty <==> order == []
    {
      empty := IsEmpty(allTasks, RingShape(allTasks, order), {allTasks} + args.Keys);
    }

    /** Any step of the scheduler, beside the registry: the ring of clients stays as it is, and
        the two stay in order. `at` is where the current task is. */
    method Perform(step: Step, at: Control)
      requires Valid() && Sound(scheduler.model) && Enabled(scheduler.model, step) && scheduler.Brings(step)
      requires ({allTasks} + args.Keys) !! Scheduler.BroughtNodes(step)
      requires at == scheduler.model.info[scheduler.currentTask].control
      modifies scheduler`model, scheduler`currentTask, scheduler`places, scheduler.places.Keys
      modifies scheduler.model.info.Keys, Scheduler.Brought(step)
      ensures Valid() && Sound(scheduler.model) && scheduler.model == Apply(old(scheduler.model), step) && order == old(order)
    {
      ghost var clients, entries, before := order, args, scheduler.model;
      assert Found(clients, entries);
      StepKeys(before, step);
      PerformFor(this, scheduler, step, at, RingShape(allTasks, order), {allTasks} + args.Keys, Apply(before, step));
      Couple(clients, entries);
      OwnTasksMore(clients, before.info, scheduler.model.info);
    }

    /** Which registered clients refuse interrupts, and the reasons they have. */
    ghost function Refusing(): map<TaskArg, nat>
      reads this, order
    {
      map a | a in order && a.interruptDisabled :: a.interruptReason
    }

    /** interrupt_all_tasks on the rings: the scheduler has cancelled the waits of all clients
        that do not refuse, one after the other. */
    method InterruptClients(reason: nat)
      requires Valid() && EventsKnown(scheduler.model)
      modifies order`interruptReason, scheduler`model, scheduler.places.Keys, scheduler.model.info.Keys
      ensures Valid() && order == old(order)
      ensures scheduler.model == CancelAll(old(scheduler.model), Targets(order, old(Refusing()).Keys))
      ensures Told(order, |order|, reason, old(Refusing()))
    {
      ghost var clients, entries, before := order, args, scheduler.model;
      assert Found(clients, entries);
      assert TasksKnown(order, scheduler.model.info);
      ghost var course := MakeCourse(scheduler.model, order, Refusing().Keys);
      InterruptFor(this, scheduler, allTasks, args, reason, order, {allTasks} + args.Keys, Refusing(), course);
      Couple(clients, entries);
      OwnTasksSame(clients, before.info, scheduler.model.info);
    }

    /** interrupt_all_tasks on a sound scheduler. It stays sound exactly when no client that would
        be reached is running or has ended without being reaped. Then all that are reached are
        the end of the ready queue, in registry order and flagged, and everybody else is where they
        were. Those reached have the reason; those who refuse keep theirs. */
    method InterruptAll(reason: nat)
      requires Valid() && Sound(scheduler.model)
      modifies order`interruptReason, scheduler`model, scheduler.places.Keys, scheduler.model.info.Keys
      ensures Valid() && order == old(order)
      ensures Sound(scheduler.model) <==> NoneGone(old(scheduler.model), order, old(Refusing()).Keys)
      ensures Sound(scheduler.model) ==> AllRequeued(old(scheduler.model), Targets(order, old(Refusing()).Keys), scheduler.model)
      ensures Told(order, |order|, reason, old(Refusing()))
    {
      InvKnowsEvents(scheduler.model);
      InterruptAllKeeps(scheduler.model, order, Refusing().Keys);
      InterruptClients(reason);
    }
  }

  /** A client that has ended and is still registered, because its end handler has not run yet:
      the scheduler is sound, and no longer so after interrupt_all_tasks. The next turn of the
      main loop switches to the task that has ended. */
  lemma EndedClientBreaks(main: Task, arg: TaskArg) returns (states: seq<State>, steps: seq<Step>)
    requires arg.task != main && arg.task.joinEvent != main.joinEvent
    ensures IsRun(states, steps) && |steps| == 5 && states[0] == Initial(main)
    ensures var s := states[5];
            && Inv(s) && s.current == main && OwnTasks([arg], s.info) && s.info[arg.task].closed
            && var s' := CancelAll(s, Targets([arg], {}));
               && !Inv(s') && Enabled(s', Step.Loop)
               && Apply(s', Step.Loop).current == arg.task && Apply(s', Step.Loop).info[arg.task].closed
  {
    states, steps := EndedRun(main, arg.task);
    InitialInv(main);
    RunInv(states, steps, 5);
    InterruptAllKeeps(states[5], [arg], {});
    assert arg in [arg];
    EndedComesBack(states[5], arg.task);
    assert Targets([arg], {}) == [arg.task];
  }

  /** The walk leaves the registry's fields alone. */
  method InterruptFor(ghost r: Registry, scheduler: Scheduler, head: Node, args: map<Node, TaskArg>, reason: nat, ghost order: seq<TaskArg>,
                      ghost nodes: set<Node>, ghost refusing: map<TaskArg, nat>, ghost course: seq<State>)
    requires Beside(scheduler, RingShape(head, order), nodes) && Found(order, args) && Told(order, 0, reason, refusing)
    requires IsCourse(course, order, refusing.Keys) && SameTasks(course, order) && scheduler.model == course[0]
    modifies order`interruptReason, scheduler`model, scheduler.places.Keys, scheduler.model.info.Keys
    ensures r.order == old(r.order) && r.args == old(r.args)
    ensures r.taskSeq == old(r.taskSeq) && r.created == old(r.created)
    ensures Beside(scheduler, RingShape(head, order), nodes) && Told(order, |order|, reason, refusing)
    ensures scheduler.model == course[|order|]
  {
    InterruptRing(scheduler, head, args, reason, order, nodes, refusing, course);
  }
}
