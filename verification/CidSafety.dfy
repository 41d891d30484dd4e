/**
 The guarantee the protocol documents: a slot is never unset while a running task uses its
 id, so two running tasks of one mm never share an id.

 It is false of arbitrary interleavings (see CidCounterexamples): an agent that decided
 "unused" may sleep, the CPU may re-allocate the same id, and a second agent may set the lazy
 flag again before the first one's second cmpxchg. `Disciplined` is the guard on the first
 cmpxchg that rules this out; `StaleAgentUnsetsUsedId` shows what happens when it fails.
 */
module CidSafety {
  import opened Basics
  import opened CidModel
  import opened CidOwnership

  /** The id the task running on `k` is using: from the moment mm_cid_get settled on it. */
  function Claim(s: State, k: Cpu): Option<Cid>
    requires Shaped(s) && k < |s.slots|
  {
    if !Using(s, s.curr[k]) then None
    else match s.rq[k]
      case Publish(c) => Some(c)
      case Free => s.tasks[s.curr[k]].cid
      case Migrate(_, _) => s.tasks[s.curr[k]].cid
      case _ => None
  }

  /** The agent may still unset `Lazy(c)` on `k` although the task now running there uses `c`. */
  predicate Dangerous(s: State, a: Agent, k: Cpu, c: Cid)
    requires Shaped(s) && k < |s.slots|
  {
    match Win(s, a)
    case Unused(j, d) => j == k && d == c
    case Loaded(j, d, t) => j == k && d == c && (t != s.curr[k] || !Using(s, t))
    case Checked(j, d, t) => j == k && d == c && (t != s.curr[k] || !Using(s, t))
    case _ => false
  }

  ghost predicate CpuSafe(s: State, k: Cpu)
    requires Shaped(s) && k < |s.slots|
  {
    Claim(s, k).Some? ==>
      var c := Claim(s, k).value;
      s.slots[k] == Valid(c) || (s.slots[k] == Lazy(c) && forall a :: !Dangerous(s, a, k, c))
  }

  /** Sections of mm_cid_put run for a task that gave up its id; any other running user has one. */
  predicate SectionFits(s: State, k: Cpu)
    requires Shaped(s) && k < |s.slots|
  {
    match s.rq[k]
    case Put => !Using(s, s.curr[k])
    case PutTry(_, _) => !Using(s, s.curr[k])
    case PutClear(_) => !Using(s, s.curr[k])
    case Forget => !Using(s, s.curr[k])
    case Free => Using(s, s.curr[k]) ==> s.tasks[s.curr[k]].cid.Some?
    case Migrate(_, _) => Using(s, s.curr[k]) ==> s.tasks[s.curr[k]].cid.Some?
    case _ => true
  }

  ghost predicate SafetyInv(s: State) {
    && OwnershipInv(s)
    && RunsOnce(s)
    && (forall k :: 0 <= k < |s.slots| ==> SectionFits(s, k))
    && (forall k :: 0 <= k < |s.slots| ==> CpuSafe(s, k))
  }

  /** No agent sets the lazy flag on an id in use while another one may still unset that very id. */
  ghost predicate Disciplined(s: State, e: Step)
    requires Shaped(s)
  {
    e.Advance? && Win(s, e.agent).Seen? ==>
      var Seen(k, c) := Win(s, e.agent);
      k < |s.slots| && s.slots[k] == Valid(c) && Claim(s, k) == Some(c) ==>
        forall b :: b != e.agent ==> !Dangerous(s, b, k, c)
  }

  // ---- One CPU at a time: what a step does to the claim and the slot of CPU `k`.

  /** A section on its own CPU. */
  lemma SectionKeepsOwn(s: State, k: Cpu)
    requires SafetyInv(s) && Enabled(s, Section(k)) && Shaped(SectionStep(s, k))
    ensures SectionFits(SectionStep(s, k), k) && CpuSafe(SectionStep(s, k), k)
  {
    assert SectionFits(s, k) && CpuSafe(s, k);
    assert Apart(s, k, k);
    var s' := SectionStep(s, k);
    assert Using(s', s'.curr[k]) == Using(s, s.curr[k]);
    if s.rq[k].Publish? {
      assert s'.slots == s.slots && Claim(s', k) == Claim(s, k);
      assert forall a, c :: Dangerous(s', a, k, c) ==> Dangerous(s, a, k, c);
    }
  }

  /** What CPU `k` sees is the same: nothing it depends on changed. */
  lemma Unaffected(s: State, s': State, k: Cpu)
    requires Shaped(s) && Shaped(s') && |s'.slots| == |s.slots| && k < |s.slots|
    requires CpuSafe(s, k) && SectionFits(s, k)
    requires s'.slots[k] == s.slots[k] && s'.curr[k] == s.curr[k]
    requires s'.rq[k] == s.rq[k] || (s.rq[k].Free? && s'.rq[k].Migrate?) || (s.rq[k].Migrate? && s'.rq[k].Free?)
    requires s'.tasks[s.curr[k]] == s.tasks[s.curr[k]]
    requires forall a :: Win(s', a) != Win(s, a) ==> !Win(s', a).Loaded? && !Win(s', a).Checked? && !Win(s', a).Unused?
    ensures CpuSafe(s', k) && SectionFits(s', k)
  {
    assert Claim(s', k) == Claim(s, k);
    assert forall a, c :: Dangerous(s', a, k, c) ==> Dangerous(s, a, k, c);
  }

  /** Steps of CPU `j` other than its sections, seen from CPU `j`. */
  lemma OwnStepKeepsSafe(s: State, e: Step, k: Cpu)
    requires SafetyInv(s) && Enabled(s, e) && k < |s.slots| && Shaped(Apply(s, e))
    requires (e.Switch? || e.Take? || e.Deactivate? || e.Activate? || e.Detach? || e.Elsewhere?) && e.cpu == k
    ensures SectionFits(Apply(s, e), k) && CpuSafe(Apply(s, e), k)
  {
    assert SectionFits(s, k) && CpuSafe(s, k);
  }

  /** Steps of other CPUs, seen from CPU `k`. */
  lemma OtherStepKeepsSafe(s: State, e: Step, k: Cpu)
    requires SafetyInv(s) && Enabled(s, e) && !e.Advance? && k < |s.slots| && Where(s, e) != k && Shaped(Apply(s, e))
    ensures SectionFits(Apply(s, e), k) && CpuSafe(Apply(s, e), k)
  {
    var s' := Apply(s, e);
    assert SectionFits(s, k) && CpuSafe(s, k) && Apart(s, Where(s, e), k);
    assert s'.slots[k] == s.slots[k];
    Unaffected(s, s', k);
  }

  /** Every step that is not an agent's, seen from CPU `k`. */
  lemma CpuStepKeepsSafe(s: State, e: Step, k: Cpu)
    requires SafetyInv(s) && Enabled(s, e) && !e.Advance? && k < |s.slots| && Shaped(Apply(s, e))
    ensures SectionFits(Apply(s, e), k) && CpuSafe(Apply(s, e), k)
  {
    if Where(s, e) != k { OtherStepKeepsSafe(s, e, k); }
    else if e.Section? { SectionKeepsOwn(s, k); }
    else { OwnStepKeepsSafe(s, e, k); }
  }

  /** The claim of `k` is not touched by agents, and only the acting agent can become dangerous. */
  lemma AgentFrame(s: State, a: Agent, k: Cpu)
    requires Shaped(s) && Enabled(s, Advance(a)) && k < |s.slots| && Shaped(AgentStep(s, a)) && SectionFits(s, k)
    ensures Claim(AgentStep(s, a), k) == Claim(s, k) && SectionFits(AgentStep(s, a), k)
    ensures forall b, c :: b != a ==> Dangerous(AgentStep(s, a), b, k, c) == Dangerous(s, b, k, c)
  {
    AgentTouches(s, a);
    ClaimFrame(s, AgentStep(s, a), a, k);
  }

  lemma ClaimFrame(s: State, s': State, a: Agent, k: Cpu)
    requires Shaped(s) && Shaped(s') && |s'.slots| == |s.slots| && k < |s.slots| && SectionFits(s, k)
    requires s'.tasks == s.tasks && s'.curr == s.curr && (forall b :: b != a ==> Win(s', b) == Win(s, b))
    requires s'.rq[k] == s.rq[k] || (s.rq[k].Migrate? && s'.rq[k].Free?)
    ensures Claim(s', k) == Claim(s, k) && SectionFits(s', k)
    ensures forall b, c :: b != a ==> Dangerous(s', b, k, c) == Dangerous(s, b, k, c)
  {
  }

  /** An agent does not become dangerous to an id in use. */
  lemma AgentStaysHarmless(s: State, a: Agent, k: Cpu, c: Cid)
    requires SafetyInv(s) && Enabled(s, Advance(a)) && k < |s.slots| && Shaped(AgentStep(s, a))
    requires Claim(s, k) == Some(c) && !Dangerous(s, a, k, c)
    ensures !Dangerous(AgentStep(s, a), a, k, c)
  {
  }

  /** An agent's step, seen from CPU `k`. */
  lemma AgentKeepsSafe(s: State, a: Agent, k: Cpu)
    requires SafetyInv(s) && Enabled(s, Advance(a)) && Disciplined(s, Advance(a)) && k < |s.slots|
    requires Shaped(AgentStep(s, a))
    ensures SectionFits(AgentStep(s, a), k) && CpuSafe(AgentStep(s, a), k)
  {
    var s' := AgentStep(s, a);
    assert CpuSafe(s, k) && SectionFits(s, k);
    AgentFrame(s, a, k);
    if Claim(s, k).Some? {
      var c := Claim(s, k).value;
      if s.slots[k] == Lazy(c) {
        assert !Dangerous(s, a, k, c);
        AgentStaysHarmless(s, a, k, c);
        ClaimedSlotKept(s, a, k, c);
        forall b ensures !Dangerous(s', b, k, c) {
          if b != a { assert !Dangerous(s, b, k, c); }
        }
      } else {
        ClaimedSlotMarked(s, a, k, c);
      }
    }
  }

  lemma ClaimedSlotKept(s: State, a: Agent, k: Cpu, c: Cid)
    requires SafetyInv(s) && Enabled(s, Advance(a)) && k < |s.slots|
    requires Claim(s, k) == Some(c) && s.slots[k] == Lazy(c) && !Dangerous(s, a, k, c)
    ensures AgentStep(s, a).slots[k] == Lazy(c)
  {
    assert SectionKnows(s.slots[k], s.rq[k]);
    assert WindowShaped(s, a, s.windows[a]);
  }

  lemma ClaimedSlotMarked(s: State, a: Agent, k: Cpu, c: Cid)
    requires SafetyInv(s) && Enabled(s, Advance(a)) && Disciplined(s, Advance(a)) && k < |s.slots|
    requires Shaped(AgentStep(s, a)) && Claim(s, k) == Some(c) && s.slots[k] == Valid(c)
    ensures AgentStep(s, a).slots[k] == Valid(c) ||
      (AgentStep(s, a).slots[k] == Lazy(c) && forall b :: !Dangerous(AgentStep(s, a), b, k, c))
  {
    var s' := AgentStep(s, a);
    assert SectionKnows(s.slots[k], s.rq[k]);
    assert WindowShaped(s, a, s.windows[a]);
    if s'.slots[k] != Valid(c) {
      assert Win(s, a) == Seen(k, c) && SectionFits(s, k);
      AgentFrame(s, a, k);
      forall b ensures !Dangerous(s', b, k, c) {
        if b != a { assert !Dangerous(s, b, k, c); }
      }
    }
  }

  lemma StepKeepsSafety(s: State, e: Step)
    requires SafetyInv(s) && Enabled(s, e) && Disciplined(s, e)
    ensures SafetyInv(Apply(s, e))
  {
    StepConserves(s, e);
    StepKeepsRunsOnce(s, e);
    StepKeepsShape(s, e);
    var s' := Apply(s, e);
    forall k | 0 <= k < |s'.slots| ensures SectionFits(s', k) && CpuSafe(s', k) {
      if e.Advance? { AgentKeepsSafe(s, e.agent, k); } else { CpuStepKeepsSafe(s, e, k); }
    }
  }

  /** A run in which every first cmpxchg is disciplined keeps the invariant. */
  lemma {:induction false} RunIsSafe(states: seq<State>, steps: seq<Step>, i: nat)
    requires IsRun(states, steps) && i < |states|
    requires forall j :: 0 <= j < |steps| ==> Shaped(states[j]) && Disciplined(states[j], steps[j])
    ensures SafetyInv(states[i])
  {
    if i == 0 {
      InitConserved(states[0]);
      InitRunsOnce(states[0]);
    } else {
      RunIsSafe(states, steps, i - 1);
      assert FollowsAt(states, steps, i - 1);
      StepKeepsSafety(states[i - 1], steps[i - 1]);
    }
  }

  /**
   The documented guarantee, over whole runs: every running task of the mm has an id, its
   CPU's slot still carries that id, and no other CPU's running task uses the same one.
   */
  lemma RunningTasksNeverShareAnId(states: seq<State>, steps: seq<Step>, i: nat, j: Cpu, k: Cpu)
    requires IsRun(states, steps) && i < |states|
    requires forall m :: 0 <= m < |steps| ==> Shaped(states[m]) && Disciplined(states[m], steps[m])
    requires Shaped(states[i]) && j < |states[i].slots| && k < |states[i].slots| && j != k
    ensures Using(states[i], states[i].curr[k]) && (states[i].rq[k].Free? || states[i].rq[k].Migrate?) ==> Claim(states[i], k).Some?
    ensures Claim(states[i], k).Some? ==> !states[i].slots[k].Unset? && states[i].slots[k].cid == Claim(states[i], k).value
    ensures Claim(states[i], k).Some? ==> Claim(states[i], j) != Claim(states[i], k)
  {
    RunIsSafe(states, steps, i);
    var s := states[i];
    assert SectionFits(s, k) && CpuSafe(s, k) && CpuSafe(s, j);
    assert Held(s, AtSlot(j)).Some? && Held(s, AtSlot(j)) == Held(s, AtSlot(k)) ==> j == k;
  }

  // ---- The simple premise, and how tight the weak one is.

  predicate Between(w: Window, k: Cpu) {
    (w.Marked? || w.Loaded? || w.Checked? || w.Unused?) && w.cpu == k
  }

  /** At most one agent is between its two cmpxchgs on any slot. */
  ghost predicate OneWindowPerSlot(s: State) {
    forall a, b, k :: Between(Win(s, a), k) && Between(Win(s, b), k) ==> a == b
  }

  lemma OneWindowIsDisciplined(s: State, e: Step)
    requires Shaped(s) && Enabled(s, e) && OneWindowPerSlot(Apply(s, e))
    ensures Disciplined(s, e)
  {
    if e.Advance? && Win(s, e.agent).Seen? {
      var Seen(k, c) := Win(s, e.agent);
      var s' := Apply(s, e);
      if k < |s.slots| && s.slots[k] == Valid(c) {
        assert Between(Win(s', e.agent), k);
        forall b | b != e.agent ensures !Dangerous(s, b, k, c) {
          assert Win(s', b) == Win(s, b);
          assert !Between(Win(s', b), k);
        }
      }
    }
  }

  /** If no two agents are ever inside their windows on the same slot, the guarantee holds. */
  lemma OneWindowRunIsSafe(states: seq<State>, steps: seq<Step>, i: nat)
    requires IsRun(states, steps) && i < |states|
    requires forall m :: 0 <= m < |states| ==> OneWindowPerSlot(states[m])
    ensures SafetyInv(states[i])
  {
    forall m | 0 <= m < |steps| ensures Shaped(states[m]) && Disciplined(states[m], steps[m]) {
      assert FollowsAt(states, steps, m);
      OneWindowIsDisciplined(states[m], steps[m]);
    }
    RunIsSafe(states, steps, i);
  }

  /** The guard is exact: it holds of a step iff the step keeps the invariant. */
  lemma DisciplineIsExact(s: State, e: Step)
    requires SafetyInv(s) && Enabled(s, e)
    ensures Disciplined(s, e) <==> SafetyInv(Apply(s, e))
  {
    if Disciplined(s, e) {
      StepKeepsSafety(s, e);
    } else {
      StepKeepsShape(s, e);
      var Seen(k, c) := Win(s, e.agent);
      assert SectionFits(s, k);
      AgentFrame(s, e.agent, k);
      var b :| b != e.agent && Dangerous(s, b, k, c);
      assert Dangerous(Apply(s, e), b, k, c);
      assert !CpuSafe(Apply(s, e), k);
    }
  }

  /** What is left for a dangerous agent to do before it reaches its second cmpxchg. */
  predicate Stale(s: State, b: Agent, k: Cpu, c: Cid)
    requires Shaped(s)
  {
    match Win(s, b)
    case Unused(j, d) => j == k && d == c
    case Loaded(j, d, t) => j == k && d == c && t in s.tasks && !s.tasks[t].active
    case Checked(j, d, t) => j == k && d == c && t in s.tasks && !s.tasks[t].member
    case _ => false
  }

  /** The agent's remaining accesses up to and including its second cmpxchg. */
  function Finish(s: State, b: Agent): seq<Step> {
    if Win(s, b).Unused? then [Advance(b)] else [Advance(b), Advance(b)]
  }

  /**
   Necessity of the guard: from any state of the invariant, setting the lazy flag on an id in
   use while a stale agent is waiting lets that agent unset the slot under the running task.
   */
  lemma StaleAgentUnsetsUsedId(s: State, a: Agent, b: Agent, k: Cpu, c: Cid) returns (states: seq<State>)
    requires SafetyInv(s) && k < |s.slots| && a != b
    requires Win(s, a) == Seen(k, c) && s.slots[k] == Valid(c) && Claim(s, k) == Some(c)
    requires Stale(s, b, k, c)
    ensures !Disciplined(s, Advance(a))
    ensures |states| == 2 + |Finish(s, b)| && states[0] == s
    ensures Follows(s, Advance(a), states[1])
    ensures forall i :: 0 <= i < |Finish(s, b)| ==> Follows(states[1 + i], Finish(s, b)[i], states[2 + i])
    ensures var last := states[|states| - 1];
      Shaped(last) && k < |last.slots| && Claim(last, k) == Some(c) && last.slots[k] == Unset
  {
    assert WindowShaped(s, b, s.windows[b]);
    assert Dangerous(s, b, k, c);
    var s1 := Apply(s, Advance(a));
    StepKeepsShape(s, Advance(a));
    assert Win(s1, b) == Win(s, b) && s1.slots[k] == Lazy(c) && s1.tasks == s.tasks;
    var s2 := Apply(s1, Advance(b));
    StepKeepsShape(s1, Advance(b));
    if Win(s, b).Unused? {
      return [s, s1, s2];
    }
    assert Win(s2, b) == Unused(k, c) && s2.slots[k] == Lazy(c);
    var s3 := Apply(s2, Advance(b));
    StepKeepsShape(s2, Advance(b));
    assert [Advance(b), Advance(b)] == Finish(s, b);
    states := [s, s1, s2, s3];
  }
}
