/**
 The tasks' own copy of the id: only a task that is on a CPU has one, so a task that is switched
 out, has given up its id for an exec or an exit, or was just forked, carries none.
 */
module CidTasks {
  import opened Basics
  import opened CidModel

  /** The section is giving up the current task's id. */
  predicate Putting(pc: RqPc) {
    pc.Put? || pc.PutTry? || pc.PutClear? || pc.Forget?
  }

  /** The section is getting an id for the current task. */
  predicate Getting(pc: RqPc) {
    pc.Get? || pc.GetTry? || pc.GetClear? || pc.Alloc? || pc.Install? || pc.Publish?
  }

  /** Ids are got for users of the mm only, and a current task that is no user has none. */
  predicate CurrFits(s: State, k: Cpu)
    requires Shaped(s) && k < |s.curr|
  {
    && (Getting(s.rq[k]) ==> Using(s, s.curr[k]))
    && (!Using(s, s.curr[k]) && !Putting(s.rq[k]) ==> s.tasks[s.curr[k]].cid == None)
  }

  /** A task with an id is on a CPU. */
  predicate HasPlace(s: State, t: Task) {
    t in s.tasks && s.tasks[t].cid.Some? ==> OnCpu(s, t)
  }

  ghost predicate TasksInv(s: State) {
    && Shaped(s) && RunsOnce(s)
    && (forall k :: 0 <= k < |s.curr| ==> CurrFits(s, k))
    && (forall t: Task :: HasPlace(s, t))
  }

  // ---- Seen from one CPU.

  lemma CurrElsewhere(s: State, s': State, k: Cpu)
    requires Shaped(s) && Shaped(s') && k < |s.curr| == |s'.curr| && CurrFits(s, k)
    requires s'.curr[k] == s.curr[k] && s'.tasks[s.curr[k]] == s.tasks[s.curr[k]]
    requires s'.rq[k] == s.rq[k] || (s.rq[k].Free? && s'.rq[k].Migrate?) || (s.rq[k].Migrate? && s'.rq[k].Free?)
    ensures CurrFits(s', k)
  {
  }

  lemma SectionKeepsCurr(s: State, k: Cpu)
    requires TasksInv(s) && Enabled(s, Section(k)) && Shaped(SectionStep(s, k))
    ensures CurrFits(SectionStep(s, k), k)
  {
    assert CurrFits(s, k) && Apart(s, k, k);
  }

  lemma StepKeepsCurr(s: State, e: Step, k: Cpu)
    requires TasksInv(s) && Enabled(s, e) && Shaped(Apply(s, e)) && k < |s.curr|
    ensures |Apply(s, e).curr| == |s.curr| && CurrFits(Apply(s, e), k)
  {
    assert CurrFits(s, k) && Apart(s, Where(s, e), k);
    if e.Advance? {
      AgentTouches(s, e.agent);
      CurrElsewhere(s, Apply(s, e), k);
    } else if Where(s, e) != k {
      CurrElsewhere(s, Apply(s, e), k);
    } else if e.Section? {
      SectionKeepsCurr(s, k);
    } else {
      OwnStepKeepsCurr(s, e, k);
    }
  }

  lemma OwnStepKeepsCurr(s: State, e: Step, k: Cpu)
    requires TasksInv(s) && Enabled(s, e) && Shaped(Apply(s, e)) && k < |s.curr| && Where(s, e) == k && !e.Section?
    ensures CurrFits(Apply(s, e), k)
  {
    assert CurrFits(s, k);
    if e.Switch? { assert HasPlace(s, e.next); }
  }

  // ---- Seen from one task.

  /** Where the task is, if it is on a CPU. */
  predicate At(s: State, t: Task, j: Cpu) {
    (j < |s.curr| && s.curr[j] == t) || (j < |s.rq| && Prev(s.rq[j]) == Some(t))
  }

  lemma AtIsOnCpu(s: State, t: Task, j: Cpu)
    requires At(s, t, j)
    ensures OnCpu(s, t)
  {
  }

  lemma SwitchKeepsPlace(s: State, k: Cpu, next: Task, t: Task, j: Cpu)
    requires TasksInv(s) && Enabled(s, Switch(k, next)) && At(s, t, j) && t in s.tasks && s.tasks[t].cid.Some?
    ensures At(Apply(s, Switch(k, next)), t, j)
  {
    assert CurrFits(s, k);
  }

  lemma SectionKeepsPlace(s: State, k: Cpu, t: Task, j: Cpu)
    requires TasksInv(s) && Enabled(s, Section(k)) && At(s, t, j)
    requires t in s.tasks && SectionStep(s, k).tasks[t].cid.Some?
    ensures At(SectionStep(s, k), t, j)
  {
  }

  lemma StepKeepsPlace(s: State, e: Step, t: Task)
    requires TasksInv(s) && Enabled(s, e)
    ensures HasPlace(Apply(s, e), t)
  {
    var s' := Apply(s, e);
    if t in s'.tasks && s'.tasks[t].cid.Some? {
      if e.Advance? { AgentTouches(s, e.agent); }
      var j := PlaceOf(s, e, t);
      if e.Switch? {
        SwitchKeepsPlace(s, e.cpu, e.next, t, j);
      } else if e.Section? {
        SectionKeepsPlace(s, e.cpu, t, j);
      }
      assert At(s', t, j);
      AtIsOnCpu(s', t, j);
    }
  }

  /** The step's task was on a CPU before: it had an id, or is just getting one. */
  lemma PlaceOf(s: State, e: Step, t: Task) returns (j: Cpu)
    requires TasksInv(s) && Enabled(s, e) && t in Apply(s, e).tasks && Apply(s, e).tasks[t].cid.Some?
    ensures At(s, t, j) && t in s.tasks && (s.tasks[t].cid.Some? || e.Section?)
  {
    if t in s.tasks && s.tasks[t].cid.Some? {
      assert HasPlace(s, t);
      if i :| 0 <= i < |s.curr| && s.curr[i] == t {
        j := i;
      } else {
        j :| 0 <= j < |s.rq| && Prev(s.rq[j]) == Some(t);
      }
    } else {
      if e.Advance? { AgentTouches(s, e.agent); }
      j := e.cpu;
    }
  }

  lemma StepKeepsTasks(s: State, e: Step)
    requires TasksInv(s) && Enabled(s, e)
    ensures TasksInv(Apply(s, e))
  {
    StepKeepsShape(s, e);
    StepKeepsRunsOnce(s, e);
    var s' := Apply(s, e);
    forall k | 0 <= k < |s'.curr| ensures CurrFits(s', k) { StepKeepsCurr(s, e, k); }
    forall t: Task ensures HasPlace(s', t) { StepKeepsPlace(s, e, t); }
  }

  /** In every state of every run, a task that is on no CPU has no id. */
  lemma {:induction false} OnlyRunningTasksHaveIds(states: seq<State>, steps: seq<Step>, i: nat)
    requires IsRun(states, steps) && i < |states|
    ensures TasksInv(states[i])
  {
    if i == 0 {
      InitRunsOnce(states[0]);
    } else {
      OnlyRunningTasksHaveIds(states, steps, i - 1);
      assert FollowsAt(states, steps, i - 1);
      StepKeepsTasks(states[i - 1], steps[i - 1]);
    }
  }
}
