/** What cancelling a list of tasks one after the other does, as interrupt_all_tasks does it
    (src/se_libs.c). */
module Interrupts {
  import opened Options
  import opened Seqs
  import opened Tasks
  import opened SeqScheduler
  import opened SchedulerInvariant

  function WithoutAll<T(==)>(s: seq<T>, ts: seq<T>): (r: seq<T>)
    ensures forall x | x in r :: x in s && x !in ts
    ensures forall x | x in s && x !in ts :: x in r
    decreases |ts|
  {
    if ts == [] then s else WithoutAll(Without(s, ts[0]), ts[1..])
  }

  lemma {:induction false} WithoutAllConcat<T>(p: seq<T>, q: seq<T>, ts: seq<T>)
    ensures WithoutAll(p + q, ts) == WithoutAll(p, ts) + WithoutAll(q, ts)
    decreases |ts|
  {
    if ts != [] {
      WithoutConcat(p, q, ts[0]);
      WithoutAllConcat(Without(p, ts[0]), Without(q, ts[0]), ts[1..]);
    }
  }

  lemma WithoutAllCons<T>(s: seq<T>, t: T, ts: seq<T>)
    ensures WithoutAll(s, [t]) == Without(s, t)
    ensures WithoutAll(s, [t] + ts) == WithoutAll(Without(s, t), ts)
  {
    assert ([t] + ts)[0] == t && ([t] + ts)[1..] == ts;
  }

  lemma {:induction false} WithoutAllAbsent<T>(s: seq<T>, ts: seq<T>)
    requires Disjoint(s, ts)
    ensures WithoutAll(s, ts) == s
    decreases |ts|
  {
    if ts != [] {
      assert ts[0] !in s by { assert ts[0] in ts; }
      WithoutAllAbsent(s, ts[1..]);
    }
  }

  /** The tasks of `ts` may be cancelled one after the other. */
  ghost predicate Cancellable(s: State, ts: seq<Task>) {
    Distinct(ts) && forall t :: t in ts ==> t in s.info && t != s.current && !s.info[t].closed
  }

  /** What cancelling all of `ts` leaves: they are the end of the ready queue, in order, and
      flagged; every other queue position is as it was, less them. */
  ghost predicate AllRequeued(s: State, ts: seq<Task>, r: State) {
    && r.main == s.main && r.current == s.current
    && r.active == WithoutAll(s.active, ts) + ts
    && r.waiters.Keys == s.waiters.Keys && r.info.Keys == s.info.Keys
    && (forall e :: e in s.waiters ==> r.waiters[e] == WithoutAll(s.waiters[e], ts))
    && (forall t :: t in s.info && t != s.current ==>
          r.info[t] == s.info[t].(cancelled := s.info[t].cancelled || t in ts))
  }

  lemma CancelRequeues(s: State, t: Task)
    requires s.current in s.info && t in s.info && t != s.current
    ensures AllRequeued(s, [t], DoCancel(s, t))
  {
    var r := DoCancel(s, t);
    assert WithoutAll(s.active, [t]) == Without(s.active, t);
    forall e | e in s.waiters ensures r.waiters[e] == WithoutAll(s.waiters[e], [t]) {
      assert WithoutAll(s.waiters[e], [t]) == Without(s.waiters[e], t);
    }
  }

  lemma RequeuedQueue(q: seq<Task>, t: Task, ts: seq<Task>)
    requires t !in ts
    ensures WithoutAll(WithoutAll(q, [t]) + [t], ts) + ts == WithoutAll(q, [t] + ts) + ([t] + ts)
  {
    var a := Without(q, t);
    WithoutAllCons(q, t, ts);
    calc {
      WithoutAll(WithoutAll(q, [t]) + [t], ts) + ts;
      WithoutAll(a + [t], ts) + ts;
      { WithoutAllConcat(a, [t], ts); }
      WithoutAll(a, ts) + WithoutAll([t], ts) + ts;
      { WithoutAllAbsent([t], ts); }
      WithoutAll(a, ts) + [t] + ts;
      WithoutAll(a, ts) + ([t] + ts);
    }
  }

  lemma RequeuedTwice(s: State, t: Task, s': State, ts: seq<Task>, r: State)
    requires AllRequeued(s, [t], s') && AllRequeued(s', ts, r) && t !in ts
    ensures AllRequeued(s, [t] + ts, r)
  {
    RequeuedQueue(s.active, t, ts);
    forall e | e in s.waiters ensures r.waiters[e] == WithoutAll(s.waiters[e], [t] + ts) {
      WithoutAllCons(s.waiters[e], t, ts);
    }
  }

  lemma {:induction false} CancelAllRequeues(s: State, ts: seq<Task>)
    requires Inv(s) && Cancellable(s, ts)
    ensures Inv(CancelAll(s, ts))
    ensures AllRequeued(s, ts, CancelAll(s, ts))
    decreases |ts|
  {
    if ts == [] {
      assert s.active + [] == s.active;
    } else {
      var t, rest := ts[0], ts[1..];
      assert ts == [t] + rest;
      DistinctConcat([t], rest);
      CancelInv(s, t);
      CancelRequeues(s, t);
      CancelAllRequeues(DoCancel(s, t), rest);
      RequeuedTwice(s, t, DoCancel(s, t), rest, CancelAll(s, ts));
    }
  }

  /** interrupt_task, for the scheduler. */
  function Interrupt(s: State, refuses: bool, t: Task): State
    requires s.current in s.info && t in s.info
  {
    if refuses then s else DoCancel(s, t)
  }

  /** One interrupt, of a task that may refuse it, on the way through the list. */
  lemma InterruptStep(s: State, refuses: bool, t: Task, rest: seq<Task>)
    requires s.current in s.info && t in s.info
    ensures CancelAll(Interrupt(s, refuses, t), rest) == CancelAll(s, (if refuses then [] else [t]) + rest)
  {
    if refuses {
      assert [] + rest == rest;
    } else {
      assert ([t] + rest)[0] == t && ([t] + rest)[1..] == rest;
    }
  }

  /** Every task's record names an event the scheduler knows, or none. */
  ghost predicate EventsKnown(s: State) {
    var known := forall t :: t in s.info && s.info[t].waitingOn.Some? ==> s.info[t].waitingOn.value in s.waiters;
    known
  }

  lemma CancelKeepsEvents(s: State, t: Task)
    requires EventsKnown(s) && s.current in s.info && t in s.info
    ensures EventsKnown(DoCancel(s, t))
  {
    var info := s.info[t := s.info[t].(cancelled := true)];
    assert DoCancel(s, t).info == info[s.current := info[s.current].(waitingOn := None)];
  }

  lemma InterruptKeeps(s: State, refuses: bool, t: Task)
    requires EventsKnown(s) && s.current in s.info && t in s.info
    ensures EventsKnown(Interrupt(s, refuses, t)) && Interrupt(s, refuses, t).info.Keys == s.info.Keys
  {
    CancelKeepsEvents(s, t);
  }

  lemma InvKnowsEvents(s: State)
    requires Inv(s)
    ensures EventsKnown(s)
  {
    assert forall t :: t in s.info ==> IsSomewhere(s.active, s.waiters, s.info[t], {s.current}, t);
  }

  /** What an interrupt means to a sound scheduler: it stays sound exactly if the task is neither
      running nor finished, and then the task is the last of the ready queue, flagged, and
      everybody else is where they were. */
  ghost predicate Interrupted(s: State, t: Task, r: State)
    requires t in s.info
  {
    var sound := Inv(r);
    var requeued := AllRequeued(s, [t], r);
    Inv(s) ==> (sound <==> t != s.current && !s.info[t].closed) && (sound ==> requeued)
  }

  lemma CancelInterrupts(s: State, t: Task)
    requires s.current in s.info && t in s.info
    ensures Interrupted(s, t, DoCancel(s, t))
  {
    if Inv(s) {
      CancelKeepsInvIff(s, t);
      if t != s.current {
        CancelRequeues(s, t);
      }
    }
  }

  // ----- the condition is exact

  /** A running or finished task is in the ready queue. */
  ghost predicate Misplaced(s: State, t: Task) {
    t in s.active && t in s.info && (t == s.current || s.info[t].closed)
  }

  lemma {:induction false} MisplacedStays(s: State, ts: seq<Task>, t: Task)
    requires s.current in s.info && Misplaced(s, t)
    ensures Misplaced(CancelAll(s, ts), t)
    decreases |ts|
  {
    if ts != [] && ts[0] in s.info {
      MisplacedStays(DoCancel(s, ts[0]), ts[1..], t);
    }
  }

  lemma {:induction false} CancelAllMisplaces(s: State, ts: seq<Task>, t: Task)
    requires s.current in s.info && t in ts && (forall u :: u in ts ==> u in s.info)
    requires t == s.current || s.info[t].closed
    ensures Misplaced(CancelAll(s, ts), t)
    decreases |ts|
  {
    var s' := DoCancel(s, ts[0]);
    if ts[0] == t {
      MisplacedStays(s', ts[1..], t);
    } else {
      CancelAllMisplaces(s', ts[1..], t);
    }
  }

  /** Interrupting a list of registered tasks keeps the scheduler sound exactly when none of
      them is running or has ended without being reaped. */
  lemma InterruptsKeepInvIff(s: State, ts: seq<Task>)
    requires Inv(s) && Distinct(ts) && forall t :: t in ts ==> t in s.info
    ensures Inv(CancelAll(s, ts)) <==> forall t :: t in ts ==> t != s.current && !s.info[t].closed
  {
    if t :| t in ts && (t == s.current || s.info[t].closed) {
      CancelAllMisplaces(s, ts, t);
    } else {
      CancelAllRequeues(s, ts);
    }
  }

  /** The main task creates `t` and switches to it. */
  lemma CreatedRuns(main: Task, t: Task) returns (states: seq<State>, steps: seq<Step>)
    requires t != main && t.joinEvent != main.joinEvent
    ensures steps == [Step.Create(t), Step.Loop, Step.Resume] && IsRun(states, steps) && states[0] == Initial(main)
    ensures states[3] == State(main, t, [main], map[main.joinEvent := [], t.joinEvent := []], [],
                               map[main := Info(None, false, false, InLoop), t := Info(None, false, false, Running)])
  {
    var s0 := Initial(main);
    var s1 := DoCreate(s0, t);
    assert s1.active == [t];
    var s2 := DoLoop(s1);
    assert s2.active == [main] && s2.current == t;
    states, steps := [s0, s1, s2, DoResume(s2)], [Step.Create(t), Step.Loop, Step.Resume];
  }

  /** A task is created, runs and ends, and the main task is back. */
  lemma EndedRun(main: Task, t: Task) returns (states: seq<State>, steps: seq<Step>)
    requires t != main && t.joinEvent != main.joinEvent
    ensures IsRun(states, steps) && |steps| == 5 && states[0] == Initial(main)
    ensures var s := states[5];
            && s.current == main == s.main && s.active == [] && s.main in s.info && s.info[s.main].control == Running
            && t in s.info && s.info[t].closed
  {
    var first, begun := CreatedRuns(main, t);
    var s4 := DoFinish(first[3]);
    assert s4.active == [] && s4.current == main;
    states, steps := first + [s4, DoResume(s4)], begun + [Step.Finish, Step.Resume];
    forall i | 0 <= i < 5 ensures StepsAt(states, steps, i) {
      assert i < 3 ==> StepsAt(first, begun, i);
    }
  }

  /** If the task that has ended is cancelled then, the next turn of the main loop switches to it. */
  lemma EndedComesBack(s: State, t: Task)
    requires s.current == s.main && s.active == [] && s.main in s.info && s.info[s.main].control == Running
    requires t in s.info && t != s.main && s.info[t].closed
    ensures var s' := CancelAll(s, [t]);
            Enabled(s', Step.Loop) && Apply(s', Step.Loop).current == t && Apply(s', Step.Loop).info[t].closed
  {
    var s' := DoCancel(s, t);
    assert CancelAll(s, [t]) == CancelAll(s', []) == s';
    assert s'.active == [t];
  }
}
