/** The shared state of the daemon as its cleanup functions change it in place, and the loop of
    se_task_entry that runs them (src/main.c, src/se_libs.c). */
module Daemon {
  import opened Pacer
  import opened Admission
  import opened AdmissionRuns

  /** All cleanups of a list, the first first; `oks` are the kernel's answers. */
  function CleanAll(g: Shared, cs: seq<Cleanup>, oks: seq<bool>): Shared
    requires |oks| == |cs|
    decreases |cs|
  {
    if cs == [] then g else CleanAll(Clean(g, cs[0], oks[0]), cs[1..], oks[1..])
  }

  class Globals {
    var nrTasks: int                // g_nr_tasks
    var limits: map<nat, Limit>     // rate_limit_map
    var unitName: bool              // g_this_unit_name is set
    var aborted: bool
    ghost var leaked: set<nat>

    constructor ()
      ensures State() == EMPTY.g
    {
      nrTasks, limits, unitName, aborted, leaked := 0, map[], false, false, {};
    }

    ghost function State(): Shared
      reads this
    {
      Shared(nrTasks, limits, unitName, leaked, aborted)
    }

    /** decrease_nr_tasks */
    method DecreaseTasks()
      modifies this
      ensures State() == Clean(old(State()), DecreaseNrTasks, true)
      ensures old(nrTasks) > 0 ==> State() == old(State()).(nr := old(nrTasks) - 1)
    {
      if nrTasks > 0 {
        nrTasks := nrTasks - 1;
      } else {
        aborted := true;
      }
    }

    /** clear_rate_limit; `ok` is whether the kernel removes a key that is there. */
    method ClearLimit(cg: nat, ok: bool)
      modifies this
      ensures State() == Clean(old(State()), ClearRateLimit(cg), ok)
      ensures forall k :: k in limits <==> k in old(limits) && (k != cg || !ok)
      ensures forall k :: k in limits ==> limits[k] == old(limits)[k]
    {
      if cg in limits {
        if ok {
          limits, leaked := limits - {cg}, leaked - {cg};
        } else {
          leaked := leaked + {cg};
        }
      }
    }

    /** The loop of se_task_entry. The list of a handler, whose order the protocol keeps, releases
        the counter exactly once if the handler had been counted, does not reach the abort, and
        removes from the map no other key than the handler's own. */
    method RunCleanups(memoryToFree: seq<Cleanup>, oks: seq<bool>)
      requires |oks| == |memoryToFree|
      modifies this
      ensures State() == CleanAll(old(State()), memoryToFree, oks)
      ensures Stacked(memoryToFree) && (HasDecrease(memoryToFree) ==> old(nrTasks) > 0) ==>
                Cleaned(old(State()), memoryToFree, false !in oks, State())
    {
      var mem, answers := memoryToFree, oks;
      while mem != []
        invariant |answers| == |mem|
        invariant CleanAll(State(), mem, answers) == CleanAll(old(State()), memoryToFree, oks)
        decreases |mem|
      {
        match mem[0] {
          case DecreaseNrTasks => DecreaseTasks();
          case ClearRateLimit(cg) => ClearLimit(cg, answers[0]);
          case _ =>
        }
        mem, answers := mem[1..], answers[1..];
      }
      if Stacked(memoryToFree) && (HasDecrease(memoryToFree) ==> old(nrTasks) > 0) {
        CleanAllEffect(old(State()), memoryToFree, oks);
      }
    }
  }

  /** What a whole list does to `g`; `allOk` is whether the kernel removes every key it is asked to. */
  ghost predicate Cleaned(g: Shared, cs: seq<Cleanup>, allOk: bool, r: Shared) {
    && r.aborted == g.aborted
    && r.nr == (if HasDecrease(cs) then g.nr - 1 else g.nr)
    && (forall cg :: cg in r.limits ==> cg in g.limits && r.limits[cg] == g.limits[cg])
    && (forall cg :: cg in g.limits && !Clears(cs, cg) ==> cg in r.limits)
    && (forall cg :: Clears(cs, cg) && allOk ==> cg !in r.limits)
  }

  /** What a whole list does: the counter is released exactly once if it was taken, the abort is
      not reached, the handler's key is gone unless the kernel kept it, other keys are untouched. */
  lemma {:induction false} CleanAllEffect(g: Shared, cs: seq<Cleanup>, oks: seq<bool>)
    requires |oks| == |cs| && Stacked(cs) && (HasDecrease(cs) ==> g.nr > 0)
    ensures Cleaned(g, cs, false !in oks, CleanAll(g, cs, oks))
    decreases |cs|
  {
    if cs != [] {
      PopStacked(cs);
      CleanAllEffect(Clean(g, cs[0], oks[0]), cs[1..], oks[1..]);
      assert oks == [oks[0]] + oks[1..];
    }
  }

  /** The loop is what the single cleanup steps of the protocol add up to. */
  lemma {:induction false} CleanupsAddUp(s: Sys, id: nat, oks: seq<bool>) returns (states: seq<Sys>, steps: seq<Step>)
    requires id in s.handlers && s.handlers[id].pc == Ending && |oks| == |s.handlers[id].cleanups|
    ensures IsRun(states, steps) && states[0] == s && |steps| == |oks|
    ensures forall i :: 0 <= i < |steps| ==> steps[i] == CleanUp(id, oks[i])
    ensures states[|steps|] ==
            Updated(s, id, s.handlers[id].(cleanups := []), CleanAll(s.g, s.handlers[id].cleanups, oks))
    decreases |oks|
  {
    var h := s.handlers[id];
    if oks == [] {
      states, steps := [s], [];
      assert Updated(s, id, h, s.g) == s;
    } else {
      var s1 := Apply(s, CleanUp(id, oks[0]));
      var rest, more := CleanupsAddUp(s1, id, oks[1..]);
      states, steps := [s] + rest, [CleanUp(id, oks[0])] + more;
      forall i | 0 <= i < |steps| ensures StepsAt(states, steps, i) {
        if i > 0 {
          assert StepsAt(rest, more, i - 1);
        }
      }
      assert states[|steps|] == rest[|more|];
    }
  }
}
