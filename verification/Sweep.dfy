/** The dead-task sweep (s_event_cancel_dead_waiting_tasks_) in closed form. */
module Sweep {
  import opened Options
  import opened Seqs
  import opened Tasks
  import opened SeqScheduler

  /** The parked tasks, event by event and each queue from its head. */
  function InOrder(waiters: map<Event, seq<Task>>, es: seq<Event>): seq<Task> {
    if es == [] then [] else (if es[0] in waiters then waiters[es[0]] else []) + InOrder(waiters, es[1..])
  }

  function Emptied(waiters: map<Event, seq<Task>>, es: seq<Event>): map<Event, seq<Task>> {
    map e | e in waiters :: if e in es then [] else waiters[e]
  }

  /** The tasks of `ts` are flagged; the current task's `waitingOn` is cleared if there are any. */
  function SweptInfo(info: map<Task, Info>, current: Task, ts: seq<Task>): map<Task, Info> {
    map t | t in info ::
      info[t].(cancelled := info[t].cancelled || t in ts,
               waitingOn := if t == current && ts != [] then None else info[t].waitingOn)
  }

  /** All of `e`'s queue `ts` is moved to the ready queue, flagged. */
  function Moved(s: State, e: Event, ts: seq<Task>): State {
    s.(active := s.active + ts, waiters := s.waiters[e := []], info := SweptInfo(s.info, s.current, ts))
  }

  function MovedOne(s: State, e: Event, ts: seq<Task>): State
    requires ts != [] && s.current in s.info && ts[0] in s.info && ts[0] != s.current
  {
    s.(active := s.active + [ts[0]], waiters := s.waiters[e := ts[1..]], info := CancelInfo(s, ts[0]))
  }

  lemma {:induction false} CancelQueue(s: State, e: Event, ts: seq<Task>)
    requires Placed(s, {s.current}) && e in s.waiters && s.waiters[e] == ts && e !in s.waitedOn
    ensures Placed(CancelAll(s, ts), {s.current})
    ensures CancelAll(s, ts) == Moved(s, e, ts)
    decreases |ts|
  {
    if ts == [] {
      MovedNone(s, e);
    } else {
      CancelOne(s, e, ts);
      MovedRest(s, e, ts);
      CancelQueue(DoCancel(s, ts[0]), e, ts[1..]);
    }
  }

  lemma MovedNone(s: State, e: Event)
    requires e in s.waiters && s.waiters[e] == []
    ensures Moved(s, e, []) == s
  {
    assert s.waiters[e := []] == s.waiters && SweptInfo(s.info, s.current, []) == s.info && s.active + [] == s.active;
  }

  lemma MovedRest(s: State, e: Event, ts: seq<Task>)
    requires ts != [] && s.current in s.info && ts[0] in s.info && ts[0] != s.current
    ensures Moved(MovedOne(s, e, ts), e, ts[1..]) == Moved(s, e, ts)
  {
    var s1 := MovedOne(s, e, ts);
    assert ts == [ts[0]] + ts[1..];
    assert s1.active + ts[1..] == s.active + ts;
    assert s1.waiters[e := []] == s.waiters[e := []];
    assert SweptInfo(s1.info, s.current, ts[1..]) == SweptInfo(s.info, s.current, ts);
  }

  lemma CancelOne(s: State, e: Event, ts: seq<Task>)
    requires Placed(s, {s.current}) && e in s.waiters && s.waiters[e] == ts && ts != [] && e !in s.waitedOn
    ensures ts[0] in s.info && ts[0] != s.current
    ensures Placed(DoCancel(s, ts[0]), {s.current})
    ensures DoCancel(s, ts[0]) == MovedOne(s, e, ts)
  {
    assert ts[0] in ts;
    assert IsParked(s.info, ts[0], e);
    assert ts[0] != s.current && Without(ts, ts[0]) == ts[1..] by {
      assert ts == [] + [ts[0]] + ts[1..];
      assert ts[0] !in ts[1..];
      WithoutAt([], ts[0], ts[1..]);
    }
    CancelParked(s, ts[0], e);
    CancelPlaced(s, ts[0]);
  }

  lemma {:induction false} InOrderFrame(w: map<Event, seq<Task>>, e: Event, es: seq<Event>)
    requires e !in es
    ensures InOrder(w[e := []], es) == InOrder(w, es)
  {
    if es != [] {
      InOrderFrame(w, e, es[1..]);
    }
  }

  function Swept(s: State, es: seq<Event>): State {
    var ts := InOrder(s.waiters, es);
    s.(active := s.active + ts,
       waiters := Emptied(s.waiters, es),
       waitedOn := [],
       info := SweptInfo(s.info, s.current, ts))
  }

  lemma SweptRest(s: State, es: seq<Event>)
    requires Distinct(es) && es != [] && es[0] in s.waiters
    ensures Swept(Moved(s.(waitedOn := es[1..]), es[0], s.waiters[es[0]]), es[1..]) == Swept(s, es)
  {
    var e, ts := es[0], s.waiters[es[0]];
    var s1 := Moved(s.(waitedOn := es[1..]), e, ts);
    InOrderFrame(s.waiters, e, es[1..]);
    var rest := InOrder(s.waiters, es[1..]);
    assert s1.active + rest == s.active + (ts + rest);
    assert Emptied(s1.waiters, es[1..]) == Emptied(s.waiters, es) by {
      assert es == [e] + es[1..];
    }
    SweptTwice(s.info, s.current, ts, rest);
  }

  lemma SweptTwice(info: map<Task, Info>, current: Task, ts: seq<Task>, rest: seq<Task>)
    ensures SweptInfo(SweptInfo(info, current, ts), current, rest) == SweptInfo(info, current, ts + rest)
  {
  }

  lemma {:induction false} SweepEventsSwept(s: State, es: seq<Event>)
    requires Placed(s, {s.current}) && s.waitedOn == es && Distinct(es)
    requires forall e :: e in es ==> e in s.waiters
    ensures SweepEvents(s, es) == Swept(s, es)
    ensures Placed(SweepEvents(s, es), {s.current})
    decreases |es|
  {
    if es == [] {
      assert Emptied(s.waiters, []) == s.waiters && SweptInfo(s.info, s.current, []) == s.info;
      assert s.active + [] == s.active;
    } else {
      var e, ts := es[0], s.waiters[es[0]];
      FirstOut(es);
      var s1 := s.(waitedOn := es[1..]);
      CancelQueue(s1, e, ts);
      SweptRest(s, es);
      SweepEventsSwept(Moved(s1, e, ts), es[1..]);
    }
  }

  /** The sweep leaves nobody parked and no event listed; the parked tasks, flagged, are at
      the end of the ready queue in event-then-queue order. */
  lemma SweepIsSwept(s: State)
    requires Placed(s, {s.current}) && Listed(s)
    ensures DoSweep(s) == Swept(s, s.waitedOn)
    ensures Placed(DoSweep(s), {s.current}) && Listed(DoSweep(s))
    ensures forall e :: e in s.waiters ==> e in DoSweep(s).waiters && DoSweep(s).waiters[e] == []
  {
    SweepEventsSwept(s, s.waitedOn);
  }

  /** The sweep visits each parked task once. */
  lemma {:induction false} OrderIsParked(s: State, es: seq<Event>)
    requires Placed(s, {s.current}) && Distinct(es) && forall e :: e in es ==> e in s.waiters
    ensures Distinct(InOrder(s.waiters, es))
    ensures forall t :: t in InOrder(s.waiters, es) <==> exists e :: e in es && t in s.waiters[e]
  {
    if es != [] {
      OrderIsParked(s, es[1..]);
      var ts, rest := s.waiters[es[0]], InOrder(s.waiters, es[1..]);
      assert es == [es[0]] + es[1..];
      forall t, e | t in ts && e in es[1..] ensures t !in s.waiters[e] {
        assert e != es[0] && IsParked(s.info, t, es[0]);
        assert t in s.waiters[e] ==> IsParked(s.info, t, e);
      }
      DistinctConcat(ts, rest);
    }
  }
}
