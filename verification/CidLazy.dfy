/**
 No lazy id is orphaned: a slot with the lazy flag set always has somebody who will unset it.

 This needs one premise. An agent loads rq->curr and only then that task's mm_cid_active. If
 the task was switched out in between and re-activates on another CPU (a failing exec calls
 sched_mm_cid_after_execve on the old mm), the agent takes it for an active task of the slot's
 CPU and leaves, and nobody may be left to unset the slot. `Cautious` excludes exactly that.
 */
module CidLazy {
  import opened Basics
  import opened CidModel
  import opened CidOwnership

  /** The section running on the slot's CPU still has to look at the slot and unset it if lazy. */
  predicate PutDue(pc: RqPc) {
    pc.LazyPut? || pc.LazyPutTry? || pc.Get? || pc.GetTry? || pc.Put? || pc.PutTry?
  }

  /** The agent set the flag, or will at least reach its second cmpxchg. */
  predicate WillUnset(s: State, a: Agent, k: Cpu, c: Cid)
    requires Shaped(s)
  {
    match Win(s, a)
    case Marked(j, d) => j == k && d == c
    case Loaded(j, d, t) => j == k && d == c && !Using(s, t)
    case Checked(j, d, t) => j == k && d == c && t in s.tasks && !s.tasks[t].member
    case Unused(j, d) => j == k && d == c
    case _ => false
  }

  /** A lazy slot has a responsible party. */
  ghost predicate Attended(s: State, k: Cpu)
    requires Shaped(s) && k < |s.slots|
  {
    s.slots[k].Lazy? ==>
      || Using(s, s.curr[k])
      || PutDue(s.rq[k])
      || exists a :: WillUnset(s, a, k, s.slots[k].cid)
  }

  ghost predicate LazyInv(s: State) {
    OwnershipInv(s) && RunsOnce(s) && forall k :: 0 <= k < |s.slots| ==> Attended(s, k)
  }

  /** The agent still holds a pointer to `t`, and will look at its flag next. */
  predicate Watches(s: State, a: Agent, t: Task) {
    Win(s, a).Loaded? && Win(s, a).task == t
  }

  /** Somebody attends the lazy slot of `k` other than by watching `t`. */
  ghost predicate AttendedWithout(s: State, k: Cpu, t: Task)
    requires Shaped(s) && k < |s.slots|
  {
    s.slots[k].Lazy? ==>
      || Using(s, s.curr[k])
      || PutDue(s.rq[k])
      || exists a :: WillUnset(s, a, k, s.slots[k].cid) && !Watches(s, a, t)
  }

  /** A task re-activates only when no other CPU's lazy slot depends on an agent watching it. */
  ghost predicate Cautious(s: State, e: Step)
    requires Shaped(s)
  {
    e.Activate? && e.cpu < |s.curr| ==>
      forall k :: 0 <= k < |s.slots| && k != e.cpu ==> AttendedWithout(s, k, s.curr[e.cpu])
  }

  lemma SectionKeepsUsing(s: State, j: Cpu)
    requires Shaped(s) && Enabled(s, Section(j)) && Shaped(SectionStep(s, j))
    ensures var s' := SectionStep(s, j);
      && s'.windows == s.windows && s'.curr == s.curr && |s'.slots| == |s.slots|
      && (forall t :: Using(s', t) == Using(s, t))
      && (forall a, k, c :: WillUnset(s, a, k, c) ==> WillUnset(s', a, k, c))
  {
  }

  lemma SectionAttends(s: State, j: Cpu, k: Cpu)
    requires LazyInv(s) && Enabled(s, Section(j)) && k < |s.slots| && Shaped(SectionStep(s, j))
    ensures Attended(SectionStep(s, j), k)
  {
    var s' := SectionStep(s, j);
    assert Attended(s, k) && SectionKnows(s.slots[k], s.rq[k]);
    SectionKeepsUsing(s, j);
    if s'.slots[k].Lazy? && !Using(s, s.curr[k]) && !PutDue(s'.rq[k]) {
      var a :| WillUnset(s, a, k, s.slots[k].cid);
      assert WillUnset(s', a, k, s.slots[k].cid);
    }
  }

  /** The responsible agent takes its own step. */
  lemma AttendantSteps(s: State, a: Agent, k: Cpu)
    requires LazyInv(s) && Enabled(s, Advance(a)) && k < |s.slots| && Shaped(AgentStep(s, a))
    requires s.slots[k].Lazy? && WillUnset(s, a, k, s.slots[k].cid)
    ensures Attended(AgentStep(s, a), k)
  {
    var s' := AgentStep(s, a);
    assert WindowShaped(s, a, s.windows[a]);
    if s'.slots[k].Lazy? && !Using(s, s.curr[k]) {
      assert WillUnset(s', a, k, s.slots[k].cid);
    }
  }

  lemma AgentAttends(s: State, a: Agent, k: Cpu)
    requires LazyInv(s) && Enabled(s, Advance(a)) && k < |s.slots| && Shaped(AgentStep(s, a))
    ensures Attended(AgentStep(s, a), k)
  {
    var s' := AgentStep(s, a);
    assert Attended(s, k) && SectionKnows(s.slots[k], s.rq[k]);
    assert WindowShaped(s, a, s.windows[a]);
    assert s'.tasks == s.tasks && s'.curr == s.curr;
    if s'.slots[k].Lazy? {
      if s.slots[k].Lazy? {
        assert s'.slots[k] == s.slots[k];
        if !Using(s, s.curr[k]) && !PutDue(s.rq[k]) {
          var b :| WillUnset(s, b, k, s.slots[k].cid);
          if b == a { AttendantSteps(s, a, k); } else { assert WillUnset(s', b, k, s.slots[k].cid); }
        } else {
          assert PutDue(s.rq[k]) ==> s'.rq[k] == s.rq[k];
        }
      } else {
        assert WillUnset(s', a, k, s'.slots[k].cid);
      }
    }
  }

  /** Re-activation costs a slot exactly the agents that watch the task. */
  lemma ActivateAttends(s: State, j: Cpu, k: Cpu)
    requires LazyInv(s) && Enabled(s, Activate(j)) && k < |s.slots| && Shaped(Apply(s, Activate(j)))
    ensures Attended(Apply(s, Activate(j)), k) <==> j == k || AttendedWithout(s, k, s.curr[j])
  {
    var e := Activate(j);
    var s', c := Apply(s, e), if s.slots[k].Lazy? then s.slots[k].cid else 0;
    if j != k {
      assert Apart(s, j, k);
      forall a ensures WillUnset(s', a, k, c) == (WillUnset(s, a, k, c) && !Watches(s, a, s.curr[j])) {
        assert Win(s', a) == Win(s, a);
      }
    }
  }

  lemma QuietAttends(s: State, e: Step, k: Cpu)
    requires LazyInv(s) && Enabled(s, e) && k < |s.slots| && Shaped(Apply(s, e))
    requires !e.Section? && !e.Advance? && !e.Activate?
    ensures Attended(Apply(s, e), k)
  {
    var s' := Apply(s, e);
    assert Attended(s, k) && s'.slots == s.slots && Apart(s, Where(s, e), k);
    if s.slots[k].Lazy? && !Using(s', s'.curr[k]) && !PutDue(s'.rq[k]) {
      assert !Using(s, s.curr[k]) && !PutDue(s.rq[k]);
      var a :| WillUnset(s, a, k, s.slots[k].cid);
      QuietKeepsAgent(s, e, a, k, s.slots[k].cid);
    }
  }

  lemma QuietKeepsAgent(s: State, e: Step, a: Agent, k: Cpu, c: Cid)
    requires Shaped(s) && Enabled(s, e) && Shaped(Apply(s, e)) && !e.Section? && !e.Advance? && !e.Activate?
    requires WillUnset(s, a, k, c)
    ensures WillUnset(Apply(s, e), a, k, c)
  {
    assert WindowShaped(s, a, s.windows[a]);
  }

  /** One step, seen from one slot. */
  lemma SlotAttended(s: State, e: Step, k: Cpu)
    requires LazyInv(s) && Enabled(s, e) && k < |s.slots| && Shaped(Apply(s, e))
    ensures Attended(Apply(s, e), k) <==> e.Activate? && e.cpu != k ==> AttendedWithout(s, k, s.curr[e.cpu])
  {
    match e
    case Section(j) => SectionAttends(s, j, k);
    case Advance(a) => AgentAttends(s, a, k);
    case Activate(j) => ActivateAttends(s, j, k);
    case _ => QuietAttends(s, e, k);
  }

  /** The premise is exact: a step keeps every lazy slot attended iff it is cautious. */
  lemma CautionIsExact(s: State, e: Step)
    requires LazyInv(s) && Enabled(s, e)
    ensures Cautious(s, e) <==> LazyInv(Apply(s, e))
  {
    StepConserves(s, e);
    StepKeepsRunsOnce(s, e);
    StepKeepsShape(s, e);
    var s' := Apply(s, e);
    forall k | 0 <= k < |s'.slots|
      ensures Attended(s', k) <==> (e.Activate? && e.cpu != k ==> AttendedWithout(s, k, s.curr[e.cpu]))
    {
      SlotAttended(s, e, k);
    }
  }

  /** In every state of a run whose re-activations are cautious, every lazy slot is attended. */
  lemma {:induction false} NoLazyIdIsOrphaned(states: seq<State>, steps: seq<Step>, i: nat)
    requires IsRun(states, steps) && i < |states|
    requires forall m :: 0 <= m < |steps| ==> Shaped(states[m]) && Cautious(states[m], steps[m])
    ensures LazyInv(states[i])
  {
    if i == 0 {
      InitConserved(states[0]);
      InitRunsOnce(states[0]);
    } else {
      NoLazyIdIsOrphaned(states, steps, i - 1);
      assert FollowsAt(states, steps, i - 1);
      CautionIsExact(states[i - 1], steps[i - 1]);
    }
  }

  /**
   Necessity of the premise: if the only agent attending a lazy slot holds a pointer to a task
   that now re-activates on another CPU, its next two loads leave the slot to nobody.
   */
  lemma ReactivationOrphans(s: State, a: Agent, j: Cpu, k: Cpu) returns (s1: State, s2: State, s3: State)
    requires LazyInv(s) && j < |s.slots| && k < |s.slots| && j != k
    requires Enabled(s, Activate(j)) && s.slots[k].Lazy?
    requires Win(s, a) == Loaded(k, s.slots[k].cid, s.curr[j])
    requires !Using(s, s.curr[k]) && !PutDue(s.rq[k])
    requires forall b :: WillUnset(s, b, k, s.slots[k].cid) ==> b == a
    ensures !Cautious(s, Activate(j))
    ensures Follows(s, Activate(j), s1) && Follows(s1, Advance(a), s2) && Follows(s2, Advance(a), s3)
    ensures Shaped(s3) && k < |s3.slots| && !Attended(s3, k)
  {
    assert Attended(s, k) && !AttendedWithout(s, k, s.curr[j]);
    s1 := Apply(s, Activate(j));
    StepKeepsShape(s, Activate(j));
    ActivateAttends(s, j, k);
    assert Apart(s, j, k);
    s2 := LeavesOrphan(s1, a, k);
    s3 := LeavesOrphan(s2, a, k);
  }

  /** An agent that looks at a user of the mm does not help an orphaned slot. */
  lemma LeavesOrphan(s: State, a: Agent, k: Cpu) returns (s': State)
    requires Shaped(s) && k < |s.slots| && !Attended(s, k)
    requires (Win(s, a).Loaded? || Win(s, a).Checked?) && Using(s, Win(s, a).task)
    ensures Follows(s, Advance(a), s') && Shaped(s') && |s'.slots| == |s.slots| && !Attended(s', k)
    ensures s'.tasks == s.tasks
    ensures Win(s, a).Loaded? ==> Win(s', a).Checked? && Win(s', a).task == Win(s, a).task
  {
    s' := AgentStep(s, a);
    AgentKeepsShape(s, a);
    AgentTouches(s, a);
    forall b ensures !WillUnset(s', b, k, s.slots[k].cid) {
      assert !WillUnset(s, b, k, s.slots[k].cid);
    }
  }
}
