/** Which rings the queues of the scheduler are, and which ring edits the moves of
    `SeqScheduler` amount to. */
module SchedulerShape {
  import opened Seqs
  import opened Rings
  import opened Tasks
  import opened SeqScheduler

  /** The record field a node is embedded in: what GET_PARENT_ADDR recovers from its address. */
  datatype Place =
    | ActiveHead                // g_globals.active_tasks
    | EventsHead                // g_globals.waiting_events
    | TaskNode(task: Task)      // task->node
    | WaitHead(event: Event)    // event->wait_list
    | SelfNode(event: Event)    // event->self

  type Places = map<Node, Place>

  /** Every node of the system has its place, and every place its node. */
  ghost predicate Named(places: Places, s: State, active: Node, events: Node) {
    && active in places && places[active] == ActiveHead
    && events in places && places[events] == EventsHead
    && (forall t :: t in s.info ==> t.node in places && places[t.node] == TaskNode(t))
    && (forall e :: e in s.waiters ==> e.waitList in places && places[e.waitList] == WaitHead(e)
                                       && e.self in places && places[e.self] == SelfNode(e))
    && (forall n :: n in places ==> HasNode(places[n], n, s, active, events))
    && (forall t :: t in s.active ==> t in s.info)
    && (forall e, t :: e in s.waiters && t in s.waiters[e] ==> t in s.info)
    && (forall e :: e in s.waitedOn ==> e in s.waiters)
  }

  ghost predicate HasNode(p: Place, n: Node, s: State, active: Node, events: Node) {
    match p
    case ActiveHead => n == active
    case EventsHead => n == events
    case TaskNode(t) => t in s.info && t.node == n
    case WaitHead(e) => e in s.waiters && e.waitList == n
    case SelfNode(e) => e in s.waiters && e.self == n
  }

  ghost function TaskNodes(ts: seq<Task>): (r: seq<Node>)
    ensures |r| == |ts|
    ensures forall i :: 0 <= i < |ts| ==> r[i] == ts[i].node
  {
    if ts == [] then [] else [ts[0].node] + TaskNodes(ts[1..])
  }

  ghost function SelfNodes(es: seq<Event>): (r: seq<Node>)
    ensures |r| == |es|
    ensures forall i :: 0 <= i < |es| ==> r[i] == es[i].self
  {
    if es == [] then [] else [es[0].self] + SelfNodes(es[1..])
  }

  ghost predicate InQueue(s: State, t: Task) {
    t in s.active || exists e :: e in s.waiters && t in s.waiters[e]
  }

  /** Whether the node at `p` is the head of a ring, or alone. */
  ghost predicate IsHead(s: State, p: Place) {
    match p
    case TaskNode(t) => !InQueue(s, t)
    case SelfNode(e) => e !in s.waitedOn
    case _ => true
  }

  ghost function Members(s: State, p: Place): seq<Node> {
    match p
    case ActiveHead => TaskNodes(s.active)
    case EventsHead => SelfNodes(s.waitedOn)
    case WaitHead(e) => if e in s.waiters then TaskNodes(s.waiters[e]) else []
    case _ => []
  }

  /** The rings that hold the queues of `s`. */
  ghost function ShapeOf(s: State, places: Places): Shape {
    map n | n in places && IsHead(s, places[n]) :: Members(s, places[n])
  }

  // ----- sequences of nodes

  lemma {:induction false} TaskNodesConcat(p: seq<Task>, q: seq<Task>)
    ensures TaskNodes(p + q) == TaskNodes(p) + TaskNodes(q)
  {
  }

  lemma SelfNodesConcat(p: seq<Event>, q: seq<Event>)
    ensures SelfNodes(p + q) == SelfNodes(p) + SelfNodes(q)
  {
  }

  lemma {:induction false} TaskNodesWithout(ts: seq<Task>, t: Task)
    requires forall u :: u in ts && u.node == t.node ==> u == t
    ensures Without(TaskNodes(ts), t.node) == TaskNodes(Without(ts, t))
  {
    if ts != [] {
      var first, rest := ts[0], ts[1..];
      TaskNodesWithout(rest, t);
      assert first in ts && TaskNodes(ts)[0] == first.node && TaskNodes(ts)[1..] == TaskNodes(rest);
      assert ([first] + Without(rest, t))[1..] == Without(rest, t);
    }
  }

  lemma {:induction false} SelfNodesWithout(es: seq<Event>, e: Event)
    requires forall f :: f in es && f.self == e.self ==> f == e
    ensures Without(SelfNodes(es), e.self) == SelfNodes(Without(es, e))
  {
    if es != [] {
      var first, rest := es[0], es[1..];
      SelfNodesWithout(rest, e);
      assert first in es && SelfNodes(es)[0] == first.self && SelfNodes(es)[1..] == SelfNodes(rest);
      assert ([first] + Without(rest, e))[1..] == Without(rest, e);
    }
  }

  // ----- moves are ring edits

  /** At place `p`, `s'` has what `s` has, less the node `x`. */
  ghost predicate Lacks(s: State, s': State, p: Place, x: Node) {
    && (IsHead(s', p) <==> IsHead(s, p))
    && (IsHead(s, p) ==> Members(s', p) == Without(Members(s, p), x))
  }

  lemma UnlinkShape(s: State, s': State, places: Places, x: Node)
    requires x in places && IsHead(s', places[x]) && Members(s', places[x]) == []
    requires forall n :: n in places && n != x ==> Lacks(s, s', places[n], x)
    ensures ShapeOf(s', places) == Unlink(ShapeOf(s, places), x)
  {
    var g, g' := ShapeOf(s, places), ShapeOf(s', places);
    forall n | n in g' && n != x ensures n in g && g'[n] == Without(g[n], x) {
      assert Lacks(s, s', places[n], x);
    }
    forall n | n in g && n != x ensures n in g' {
      assert Lacks(s, s', places[n], x);
    }
    IsUnlink(g, g', x);
  }

  lemma LinkedElsewhere(s: State, t: Task, u: Task)
    requires t != u
    ensures InQueue(Detached(s, t), u) <==> InQueue(s, u)
  {
    var s' := Detached(s, t);
    assert u in s'.active <==> u in s.active;
    forall e | e in s.waiters ensures u in s'.waiters[e] <==> u in s.waiters[e] {
    }
  }

  lemma DetachedLacks(s: State, t: Task, p: Place)
    requires p.TaskNode? ==> p.task != t
    requires forall u :: u in s.active && u.node == t.node ==> u == t
    requires forall e, u :: e in s.waiters && u in s.waiters[e] && u.node == t.node ==> u == t
    requires forall e :: e in s.waitedOn ==> e.self != t.node
    ensures Lacks(s, Detached(s, t), p, t.node)
  {
    match p
    case ActiveHead => TaskNodesWithout(s.active, t);
    case WaitHead(e) => if e in s.waiters { TaskNodesWithout(s.waiters[e], t); }
    case TaskNode(u) => LinkedElsewhere(s, t, u);
    case _ =>
  }

  lemma DetachedShape(s: State, places: Places, a: Node, w: Node, t: Task)
    requires Named(places, s, a, w) && t in s.info
    ensures ShapeOf(Detached(s, t), places) == Unlink(ShapeOf(s, places), t.node)
  {
    forall n | n in places && n != t.node ensures Lacks(s, Detached(s, t), places[n], t.node) {
      DetachedLacks(s, t, places[n]);
    }
    UnlinkShape(s, Detached(s, t), places, t.node);
  }

  /** At place `p`, `s'` has what `s` has. */
  ghost predicate Agree(s: State, s': State, p: Place) {
    && (IsHead(s', p) <==> IsHead(s, p))
    && (IsHead(s, p) ==> Members(s', p) == Members(s, p))
  }

  lemma JoinShape(s: State, s': State, places: Places, h: Node, m: Node)
    requires h in places && m in places && h != m
    requires IsHead(s, places[h]) && IsHead(s, places[m]) && IsHead(s', places[h]) && !IsHead(s', places[m])
    requires Members(s', places[h]) == Members(s, places[h]) + [m] + Members(s, places[m])
    requires forall n :: n in places && n != h && n != m ==> Agree(s, s', places[n])
    ensures ShapeOf(s', places) == Join(ShapeOf(s, places), h, m)
  {
    var g, g' := ShapeOf(s, places), ShapeOf(s', places);
    forall n | n in g' && n != h ensures n in g && g'[n] == g[n] {
      assert Agree(s, s', places[n]);
    }
    forall n | n in g && n != m ensures n in g' {
      assert n != h ==> Agree(s, s', places[n]);
    }
    IsJoin(g, g', h, m);
  }

  lemma PushActiveShape(s: State, places: Places, a: Node, w: Node, t: Task)
    requires Named(places, s, a, w) && t in s.info && !InQueue(s, t)
    ensures ShapeOf(PushActive(s, t), places) == Join(ShapeOf(s, places), a, t.node)
  {
    var s' := PushActive(s, t);
    TaskNodesConcat(s.active, [t]);
    forall n | n in places && n != a && n != t.node ensures Agree(s, s', places[n]) {
      if places[n].TaskNode? {
        assert InQueue(s', places[n].task) <==> InQueue(s, places[n].task);
      }
    }
    assert InQueue(s', t);
    JoinShape(s, s', places, a, t.node);
  }

  lemma PushWaiterShape(s: State, places: Places, a: Node, w: Node, e: Event, t: Task)
    requires Named(places, s, a, w) && t in s.info && !InQueue(s, t) && e in s.waiters
    ensures ShapeOf(PushWaiter(s, e, t), places) == Join(ShapeOf(s, places), e.waitList, t.node)
  {
    var s' := PushWaiter(s, e, t);
    TaskNodesConcat(s.waiters[e], [t]);
    forall n | n in places && n != e.waitList && n != t.node ensures Agree(s, s', places[n]) {
      if places[n].TaskNode? {
        PushWaiterLinked(s, e, t, places[n].task);
      }
    }
    assert t in s'.waiters[e];
    JoinShape(s, s', places, e.waitList, t.node);
  }

  lemma PushWaiterLinked(s: State, e: Event, t: Task, u: Task)
    requires e in s.waiters && t != u
    ensures InQueue(PushWaiter(s, e, t), u) <==> InQueue(s, u)
  {
    var s' := PushWaiter(s, e, t);
    forall f | f in s.waiters ensures u in s'.waiters[f] <==> u in s.waiters[f] {
    }
  }

  lemma UnlistShape(s: State, places: Places, a: Node, w: Node, e: Event)
    requires Named(places, s, a, w) && e in s.waiters
    ensures ShapeOf(s.(waitedOn := Without(s.waitedOn, e)), places) == Unlink(ShapeOf(s, places), e.self)
  {
    var s' := s.(waitedOn := Without(s.waitedOn, e));
    forall n | n in places && n != e.self ensures Lacks(s, s', places[n], e.self) {
      match places[n]
      case ActiveHead => assert forall u :: u in s.active ==> u.node != e.self;
      case WaitHead(f) => assert forall u :: u in s.waiters[f] ==> u.node != e.self;
      case EventsHead => SelfNodesWithout(s.waitedOn, e);
      case TaskNode(u) => assert InQueue(s', u) <==> InQueue(s, u);
      case SelfNode(f) =>
    }
    UnlinkShape(s, s', places, e.self);
  }

  lemma ListShape(s: State, places: Places, a: Node, w: Node, e: Event)
    requires Named(places, s, a, w) && e in s.waiters && e !in s.waitedOn
    ensures ShapeOf(s.(waitedOn := s.waitedOn + [e]), places) == Join(ShapeOf(s, places), w, e.self)
  {
    var s' := s.(waitedOn := s.waitedOn + [e]);
    SelfNodesConcat(s.waitedOn, [e]);
    forall n | n in places && n != w && n != e.self ensures Agree(s, s', places[n]) {
      if places[n].TaskNode? {
        assert InQueue(s', places[n].task) <==> InQueue(s, places[n].task);
      }
    }
    JoinShape(s, s', places, w, e.self);
  }

  lemma NoSuchMember(s: State, places: Places, a: Node, w: Node, e: Event, p: Place)
    requires Named(places, s, a, w) && e in s.waiters
    ensures e.waitList !in Members(s, p)
  {
    match p
    case ActiveHead => assert forall u :: u in s.active ==> u.node != e.waitList;
    case WaitHead(f) => assert f in s.waiters ==> forall u :: u in s.waiters[f] ==> u.node != e.waitList;
    case EventsHead => assert forall f :: f in s.waitedOn ==> f.self != e.waitList;
    case _ =>
  }

  lemma WakeLinked(s: State, e: Event, u: Task)
    requires e in s.waiters
    ensures InQueue(Wake(s, e), u) <==> InQueue(s, u)
  {
    var s' := Wake(s, e);
    assert u in s'.active <==> u in s.active || u in s.waiters[e];
    forall f | f in s.waiters && f != e ensures s'.waiters[f] == s.waiters[f] {
    }
  }

  lemma WakeAgrees(s: State, e: Event, p: Place)
    requires e in s.waiters && p != ActiveHead && p != WaitHead(e)
    ensures Agree(s, Wake(s, e), p)
  {
    if p.TaskNode? {
      WakeLinked(s, e, p.task);
    }
  }

  /** The ready ring after the head and the queue of `e` have joined it. */
  lemma WakeActive(s: State, places: Places, a: Node, w: Node, e: Event)
    requires Named(places, s, a, w) && e in s.waiters
    ensures a in ShapeOf(s, places) && e.waitList in ShapeOf(s, places) && a in ShapeOf(Wake(s, e), places)
    ensures Without(Join(ShapeOf(s, places), a, e.waitList)[a], e.waitList) == ShapeOf(Wake(s, e), places)[a]
  {
    var g, x := ShapeOf(s, places), e.waitList;
    NoSuchMember(s, places, a, w, e, ActiveHead);
    NoSuchMember(s, places, a, w, e, WaitHead(e));
    WithoutAt(g[a], x, g[x]);
    TaskNodesConcat(s.active, s.waiters[e]);
  }

  lemma WakeOther(s: State, places: Places, a: Node, w: Node, e: Event, n: Node)
    requires Named(places, s, a, w) && e in s.waiters && n != a && n != e.waitList
    ensures n in ShapeOf(Wake(s, e), places) <==> n in ShapeOf(s, places)
    ensures n in ShapeOf(s, places) ==> ShapeOf(Wake(s, e), places)[n] == Without(ShapeOf(s, places)[n], e.waitList)
  {
    if n in places {
      WakeAgrees(s, e, places[n]);
      NoSuchMember(s, places, a, w, e, places[n]);
    }
  }

  lemma WakeShape(s: State, places: Places, a: Node, w: Node, e: Event)
    requires Named(places, s, a, w) && e in s.waiters
    ensures a in ShapeOf(s, places) && e.waitList in ShapeOf(s, places)
    ensures ShapeOf(Wake(s, e), places) == Unlink(Join(ShapeOf(s, places), a, e.waitList), e.waitList)
  {
    var g, g', x := ShapeOf(s, places), ShapeOf(Wake(s, e), places), e.waitList;
    WakeActive(s, places, a, w, e);
    var j := Join(g, a, x);
    forall n | n in g' && n != x ensures n in j && g'[n] == Without(j[n], x) {
      if n != a {
        WakeOther(s, places, a, w, e, n);
      }
    }
    forall n | n in j && n != x ensures n in g' {
      if n != a {
        WakeOther(s, places, a, w, e, n);
      }
    }
    IsUnlink(j, g', x);
  }

  lemma SameShape(s: State, s': State, places: Places)
    requires s'.active == s.active && s'.waiters == s.waiters && s'.waitedOn == s.waitedOn
    ensures ShapeOf(s', places) == ShapeOf(s, places)
  {
    forall n | n in places ensures Agree(s, s', places[n]) {
      if places[n].TaskNode? {
        assert InQueue(s', places[n].task) <==> InQueue(s, places[n].task);
      }
    }
  }

  /** Taking the first ready task is detaching it. */
  lemma TakeShape(s: State, places: Places, a: Node, w: Node)
    requires Named(places, s, a, w) && Placed(s, {}) && s.active != []
    ensures ShapeOf(s.(active := s.active[1..]), places) == Unlink(ShapeOf(s, places), s.active[0].node)
  {
    var t := s.active[0];
    DetachedShape(s, places, a, w, t);
    DetachedActive(s, {}, t);
    FirstOut(s.active);
  }

  /** The places once the nodes of `e` are known. */
  ghost function WithEvent(places: Places, e: Event): Places {
    places[e.waitList := WaitHead(e)][e.self := SelfNode(e)]
  }

  lemma InitEventNamed(s: State, places: Places, a: Node, w: Node, e: Event)
    requires Named(places, s, a, w) && e !in s.waiters
    requires e.waitList !in places && e.self !in places && e.waitList != e.self
    ensures Named(WithEvent(places, e), DoInitEvent(s, e), a, w)
  {
    var s' := DoInitEvent(s, e);
    assert forall n :: n in places ==> HasNode(places[n], n, s', a, w);
  }

  lemma InitEventShape(s: State, places: Places, a: Node, w: Node, e: Event)
    requires Named(places, s, a, w) && e !in s.waiters
    requires e.waitList !in places && e.self !in places && e.waitList != e.self
    ensures ShapeOf(DoInitEvent(s, e), WithEvent(places, e)) == ShapeOf(s, places)[e.waitList := []][e.self := []]
  {
    forall n | n in places ensures Agree(s, DoInitEvent(s, e), places[n]) {
      InitEventAgrees(s, e, places[n]);
    }
    ExtendShape(s, DoInitEvent(s, e), places, e);
  }

  lemma ExtendShape(s: State, s': State, places: Places, e: Event)
    requires e.waitList !in places && e.self !in places && e.waitList != e.self
    requires forall n :: n in places ==> Agree(s, s', places[n])
    requires e !in s'.waitedOn && Members(s', WaitHead(e)) == []
    ensures ShapeOf(s', WithEvent(places, e)) == ShapeOf(s, places)[e.waitList := []][e.self := []]
  {
    var g, g' := ShapeOf(s, places), ShapeOf(s', WithEvent(places, e));
    forall n | n in places ensures n in g' <==> n in g {
      assert Agree(s, s', places[n]);
    }
    forall n | n in g ensures g'[n] == g[n] {
      assert Agree(s, s', places[n]);
    }
  }

  lemma InitEventAgrees(s: State, e: Event, p: Place)
    requires e !in s.waiters && p != WaitHead(e) && p != SelfNode(e)
    ensures Agree(s, DoInitEvent(s, e), p)
  {
    var s' := DoInitEvent(s, e);
    forall f | f in s.waiters ensures f in s'.waiters && s'.waiters[f] == s.waiters[f] {
    }
    if p.TaskNode? {
      assert InQueue(s', p.task) <==> InQueue(s, p.task);
    }
  }

  lemma NewTaskNamed(s: State, places: Places, a: Node, w: Node, t: Task, i: Info)
    requires Named(places, s, a, w) && t !in s.info && t.node !in places
    ensures Named(places[t.node := TaskNode(t)], WithInfo(s, t, i), a, w)
  {
    assert forall n :: n in places ==> HasNode(places[n], n, WithInfo(s, t, i), a, w);
  }

  lemma NewTaskShape(s: State, places: Places, a: Node, w: Node, t: Task, i: Info)
    requires Named(places, s, a, w) && t !in s.info && t.node !in places
    ensures !InQueue(WithInfo(s, t, i), t)
    ensures ShapeOf(WithInfo(s, t, i), places[t.node := TaskNode(t)]) == ShapeOf(s, places)[t.node := []]
  {
    var s' := WithInfo(s, t, i);
    SameShape(s, s', places);
    assert !InQueue(s', t);
  }

  lemma NamedKeeps(places: Places, s: State, s': State, a: Node, w: Node)
    requires Named(places, s, a, w)
    requires s'.info.Keys == s.info.Keys && s'.waiters.Keys == s.waiters.Keys
    requires forall t :: t in s'.active ==> t in s.info
    requires forall e, t :: e in s'.waiters && t in s'.waiters[e] ==> t in s.info
    requires forall e :: e in s'.waitedOn ==> e in s.waiters
    ensures Named(places, s', a, w)
  {
    assert forall n :: n in places ==> HasNode(places[n], n, s', a, w);
  }

  /** A task's node is alone or somewhere behind a head. */
  lemma TaskOnRing(s: State, places: Places, a: Node, w: Node, t: Task)
    requires Named(places, s, a, w) && t in s.info
    ensures var g := ShapeOf(s, places);
            && (t.node in g ==> g[t.node] == [])
            && (exists h :: h in g && t.node in RingAt(g, h))
  {
    var g := ShapeOf(s, places);
    if t in s.active {
      var i :| 0 <= i < |s.active| && s.active[i] == t;
      assert t.node == g[a][i] && t.node in RingAt(g, a);
    } else if InQueue(s, t) {
      var e :| e in s.waiters && t in s.waiters[e];
      var i :| 0 <= i < |s.waiters[e]| && s.waiters[e][i] == t;
      assert t.node == g[e.waitList][i] && t.node in RingAt(g, e.waitList);
    } else {
      assert t.node in RingAt(g, t.node);
    }
  }

  lemma SelfOnRing(s: State, places: Places, a: Node, w: Node, e: Event)
    requires Named(places, s, a, w) && e in s.waiters
    ensures var g := ShapeOf(s, places);
            && (e.self in g ==> g[e.self] == [])
            && (exists h :: h in g && e.self in RingAt(g, h))
  {
    var g := ShapeOf(s, places);
    if e in s.waitedOn {
      var i :| 0 <= i < |s.waitedOn| && s.waitedOn[i] == e;
      assert e.self == g[w][i] && e.self in RingAt(g, w);
    } else {
      assert e.self in RingAt(g, e.self);
    }
  }

  // ----- each move as one fact

  lemma DetachMove(s: State, places: Places, a: Node, w: Node, t: Task)
    requires Named(places, s, a, w) && t in s.info
    ensures var g := ShapeOf(s, places);
            && (t.node in g ==> g[t.node] == [])
            && (exists h :: h in g && t.node in RingAt(g, h))
            && ShapeOf(Detached(s, t), places) == Unlink(g, t.node)
    ensures Named(places, Detached(s, t), a, w)
  {
    DetachedShape(s, places, a, w, t);
    TaskOnRing(s, places, a, w, t);
    NamedKeeps(places, s, Detached(s, t), a, w);
  }

  lemma PushActiveMove(s: State, places: Places, a: Node, w: Node, t: Task)
    requires Named(places, s, a, w) && t in s.info && !InQueue(s, t)
    ensures var g := ShapeOf(s, places);
            a in g && t.node in g && a != t.node && ShapeOf(PushActive(s, t), places) == Join(g, a, t.node)
    ensures Named(places, PushActive(s, t), a, w)
  {
    PushActiveShape(s, places, a, w, t);
    NamedKeeps(places, s, PushActive(s, t), a, w);
  }

  lemma PushWaiterMove(s: State, places: Places, a: Node, w: Node, e: Event, t: Task)
    requires Named(places, s, a, w) && t in s.info && !InQueue(s, t) && e in s.waiters
    ensures var g := ShapeOf(s, places);
            && e.waitList in g && t.node in g && e.waitList != t.node
            && ShapeOf(PushWaiter(s, e, t), places) == Join(g, e.waitList, t.node)
    ensures Named(places, PushWaiter(s, e, t), a, w)
  {
    PushWaiterShape(s, places, a, w, e, t);
    NamedKeeps(places, s, PushWaiter(s, e, t), a, w);
  }

  lemma UnlistMove(s: State, places: Places, a: Node, w: Node, e: Event)
    requires Named(places, s, a, w) && e in s.waiters
    ensures var g, s' := ShapeOf(s, places), s.(waitedOn := Without(s.waitedOn, e));
            && (e.self in g ==> g[e.self] == [])
            && (exists h :: h in g && e.self in RingAt(g, h))
            && ShapeOf(s', places) == Unlink(g, e.self) && Named(places, s', a, w)
  {
    UnlistShape(s, places, a, w, e);
    SelfOnRing(s, places, a, w, e);
    NamedKeeps(places, s, s.(waitedOn := Without(s.waitedOn, e)), a, w);
  }

  lemma ListMove(s: State, places: Places, a: Node, w: Node, e: Event)
    requires Named(places, s, a, w) && e in s.waiters && e !in s.waitedOn
    ensures var g, s' := ShapeOf(s, places), s.(waitedOn := s.waitedOn + [e]);
            && w in g && e.self in g && w != e.self
            && ShapeOf(s', places) == Join(g, w, e.self) && Named(places, s', a, w)
  {
    ListShape(s, places, a, w, e);
    NamedKeeps(places, s, s.(waitedOn := s.waitedOn + [e]), a, w);
  }

  lemma WakeMove(s: State, places: Places, a: Node, w: Node, e: Event)
    requires Named(places, s, a, w) && e in s.waiters
    ensures var g := ShapeOf(s, places);
            && a in g && e.waitList in g && a != e.waitList
            && ShapeOf(Wake(s, e), places) == Unlink(Join(g, a, e.waitList), e.waitList)
            && e.waitList in RingAt(Join(g, a, e.waitList), a)
    ensures Named(places, Wake(s, e), a, w)
  {
    WakeShape(s, places, a, w, e);
    NamedKeeps(places, s, Wake(s, e), a, w);
  }

  lemma TakeMove(s: State, places: Places, a: Node, w: Node)
    requires Named(places, s, a, w) && Placed(s, {}) && s.active != []
    ensures var g, n := ShapeOf(s, places), s.active[0].node;
            && a in g && n !in g && |g[a]| > 0 && g[a][0] == n && n in RingAt(g, a)
            && n in places && places[n] == TaskNode(s.active[0])
            && ShapeOf(s.(active := s.active[1..]), places) == Unlink(g, n)
    ensures Named(places, s.(active := s.active[1..]), a, w)
  {
    TakeShape(s, places, a, w);
    assert s.active[0] in s.active;
    NamedKeeps(places, s, s.(active := s.active[1..]), a, w);
  }

  /** A change to a record leaves the rings alone. */
  lemma InfoMove(s: State, s': State, places: Places, a: Node, w: Node)
    requires Named(places, s, a, w) && s'.info.Keys == s.info.Keys
    requires s'.active == s.active && s'.waiters == s.waiters && s'.waitedOn == s.waitedOn
    ensures ShapeOf(s', places) == ShapeOf(s, places)
    ensures Named(places, s', a, w)
  {
    SameShape(s, s', places);
    NamedKeeps(places, s, s', a, w);
  }

  /** The two list heads, before there is any task. */
  lemma BareShape(s: State, a: Node, w: Node)
    requires a != w && s.active == [] && s.waiters == map[] && s.waitedOn == [] && s.info == map[]
    requires IsRing([a]) && IsRing([w])
    ensures var places := map[a := ActiveHead, w := EventsHead];
            && Named(places, s, a, w)
            && Shaped(ShapeOf(s, places), {a, w})
  {
    var g := ShapeOf(s, map[a := ActiveHead, w := EventsHead]);
    assert RingAt(g, a) == [a] && RingAt(g, w) == [w];
  }
}
