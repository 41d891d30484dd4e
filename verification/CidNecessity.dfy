/**
 The guard of CidSafety is needed for the guarantee itself: after a first cmpxchg without it, the
 running task can lose its id without taking a step. A dangerous agent that has not decided yet
 watches some task; that task is brought to another CPU, gives up its id and leaves the mm, and the
 agent takes the slot for unused. This needs a CPU the agent does not hold itself, and without one
 the agent gives up.
 */
module CidNecessity {
  import opened Basics
  import opened CidModel
  import opened CidOwnership
  import opened CidSafety
  import CidAllocator

  // ---- What a stealer knows about the CPU it holds.

  /** It does not watch the current task there, unless it steals from that very CPU; then it is right about it. */
  predicate WatchesElsewhere(s: State, j: Cpu) {
    var w := Win(s, Stealer(j));
    j < |s.curr| && !w.Idle? ==>
      && (w.Loaded? || w.Checked? ==> (w.task == s.curr[j] <==> w.cpu == j))
      && (w.Unused? && w.cpu == j ==> !Using(s, s.curr[j]))
  }

  /** What every step keeps, disciplined or not. */
  ghost predicate Steady(s: State) {
    OwnershipInv(s) && RunsOnce(s) && forall j: Cpu :: WatchesElsewhere(s, j)
  }

  lemma StealWatches(s: State, j: Cpu)
    requires Steady(s) && Enabled(s, Advance(Stealer(j)))
    ensures WatchesElsewhere(AgentStep(s, Stealer(j)), j)
  {
    var a := Stealer(j);
    assert WatchesElsewhere(s, j) && WindowShaped(s, a, s.windows[a]);
    AgentTouches(s, a);
    if Win(s, a).Marked? { assert Apart(s, Win(s, a).cpu, j); }
  }

  /** A held CPU keeps its current task, and nobody else makes that task a user. */
  lemma HeldStays(s: State, e: Step, j: Cpu)
    requires Steady(s) && Enabled(s, e) && !e.Advance? && j < |s.curr| && s.rq[j].Migrate?
    ensures var s' := Apply(s, e);
      |s'.curr| == |s.curr| && s'.curr[j] == s.curr[j] && (Using(s', s.curr[j]) ==> Using(s, s.curr[j]))
  {
    assert Apart(s, Where(s, e), j);
    if e.Section? { SectionForgets(s, e.cpu); }
  }

  lemma StepWatches(s: State, e: Step, j: Cpu)
    requires Steady(s) && Enabled(s, e)
    ensures WatchesElsewhere(Apply(s, e), j)
  {
    var a := Stealer(j);
    assert WatchesElsewhere(s, j);
    if a in s.windows { assert WindowShaped(s, a, s.windows[a]); }
    if e == Advance(a) {
      StealWatches(s, j);
    } else if e.Advance? {
      AgentTouches(s, e.agent);
    } else if !Win(s, a).Idle? {
      HeldStays(s, e, j);
    } else {
      LooksOnly(s, e, a);
    }
  }

  /** An idle agent is idle or has just looked after a step that is not its own. */
  lemma LooksOnly(s: State, e: Step, a: Agent)
    requires Shaped(s) && Enabled(s, e) && !e.Advance? && Win(s, a).Idle?
    ensures Win(Apply(s, e), a).Idle? || Win(Apply(s, e), a).Seen?
  {
  }

  lemma StepSteady(s: State, e: Step)
    requires Steady(s) && Enabled(s, e)
    ensures Steady(Apply(s, e))
  {
    StepConserves(s, e);
    StepKeepsRunsOnce(s, e);
    forall j: Cpu ensures WatchesElsewhere(Apply(s, e), j) { StepWatches(s, e, j); }
  }

  /** In every state of every run. */
  lemma {:induction false} RunIsSteady(states: seq<State>, steps: seq<Step>, i: nat)
    requires IsRun(states, steps) && i < |states|
    ensures Steady(states[i])
  {
    if i == 0 {
      InitConserved(states[0]);
      InitRunsOnce(states[0]);
    } else {
      RunIsSteady(states, steps, i - 1);
      assert FollowsAt(states, steps, i - 1);
      StepSteady(states[i - 1], steps[i - 1]);
    }
  }

  // ---- Paths on which CPU `k` takes no step.

  predicate Aside(s: State, e: Step, k: Cpu) {
    Where(s, e) != k && !((e.StealBegin? || e.StealEnd?) && e.dst == k) && !(e.Advance? && e.agent == Stealer(k))
  }

  predicate AsideAt(states: seq<State>, steps: seq<Step>, i: nat, k: Cpu) {
    i < |steps| && |states| == |steps| + 1 && Aside(states[i], steps[i], k)
  }

  ghost predicate IsAside(states: seq<State>, steps: seq<Step>, k: Cpu) {
    IsPath(states, steps) && forall i: nat :: i < |steps| ==> AsideAt(states, steps, i, k)
  }

  ghost predicate ReachesAside(s: State, t: State, k: Cpu) {
    exists states: seq<State>, steps: seq<Step> :: IsAside(states, steps, k) && states[0] == s && states[|steps|] == t
  }

  lemma HereAside(s: State, k: Cpu)
    ensures ReachesAside(s, s, k)
  {
    assert IsAside([s], [], k);
  }

  lemma ThenAside(o: State, s: State, e: Step, k: Cpu)
    requires ReachesAside(o, s, k) && Shaped(s) && Enabled(s, e) && Aside(s, e, k)
    ensures ReachesAside(o, Apply(s, e), k)
  {
    var states: seq<State>, steps: seq<Step> :| IsAside(states, steps, k) && states[0] == o && states[|steps|] == s;
    var states', steps' := states + [Apply(s, e)], steps + [e];
    forall i: nat | i < |steps'| ensures FollowsAt(states', steps', i) && AsideAt(states', steps', i, k) {
      if i < |steps| { assert FollowsAt(states, steps, i) && AsideAt(states, steps, i, k); }
    }
    assert IsAside(states', steps', k);
  }

  // ---- The scene: a lazy slot whose id is in use, and an agent that watches some other task.

  /** The slot is unset although the task running on its CPU uses the id. */
  predicate Robbed(s: State, k: Cpu, c: Cid) {
    Shaped(s) && k < |s.slots| && s.slots[k] == Unset && Claim(s, k) == Some(c)
  }

  predicate Watching(w: Window, k: Cpu, c: Cid, t: Task) {
    (w.Loaded? || w.Checked?) && w.cpu == k && w.cid == c && w.task == t
  }

  /** A lazy slot whose id is in use. */
  ghost predicate MarkedInUse(s: State, k: Cpu, c: Cid) {
    Steady(s) && k < |s.slots| && s.slots[k] == Lazy(c) && Claim(s, k) == Some(c)
  }

  ghost predicate Poised(s: State, b: Agent, k: Cpu, c: Cid, t: Task) {
    && MarkedInUse(s, k, c)
    && Watching(Win(s, b), k, c, t) && t != s.curr[k] && t in s.tasks
  }

  /** Steps of other CPUs leave what CPU `k` claims alone. */
  lemma ClaimStays(s: State, e: Step, k: Cpu)
    requires Steady(s) && Enabled(s, e) && Aside(s, e, k) && k < |s.slots| && Claim(s, k).Some?
    ensures var s' := Apply(s, e);
      && Shaped(s') && |s'.slots| == |s.slots| && Claim(s', k) == Claim(s, k) && s'.curr[k] == s.curr[k]
  {
    StepKeepsShape(s, e);
    assert Apart(s, Where(s, e), k);
    if e.Advance? { AgentRqStays(s, e.agent, k); }
  }

  lemma AgentRqStays(s: State, a: Agent, k: Cpu)
    requires Shaped(s) && Enabled(s, Advance(a)) && k < |s.slots| && a != Stealer(k)
    ensures var s' := AgentStep(s, a); s'.rq[k] == s.rq[k] && s'.tasks == s.tasks && s'.curr == s.curr
  {
    AgentTouches(s, a);
    assert WindowShaped(s, a, s.windows[a]);
  }

  lemma StaysPoised(s: State, e: Step, b: Agent, k: Cpu, c: Cid, t: Task)
    requires Poised(s, b, k, c, t) && Enabled(s, e) && Aside(s, e, k) && e != Advance(b) && Apply(s, e).slots[k] == Lazy(c)
    ensures Poised(Apply(s, e), b, k, c, t)
  {
    StepSteady(s, e);
    ClaimStays(s, e, k);
    if e.Advance? { AgentTouches(s, e.agent); }
  }

  // ---- Finishing what is under way on another CPU.

  /** How much the section on CPU `j` has left to do. */
  function Rank(s: State, j: Cpu): nat
    requires Shaped(s) && j < |s.slots|
  {
    match s.rq[j]
    case Free => 0
    case Forget => 1
    case PutClear(_) => 2
    case PutTry(c, lazy) => if s.slots[j] == (if lazy then Lazy(c) else Valid(c)) || s.slots[j].Unset? then 3 else 4
    case Put => 5
    case Publish(_) => 1
    case Install(_) => 2
    case Alloc => 3
    case GetClear(_) => 4
    case GetTry(_) => 5
    case Get => 6
    case Leave(_) => 7
    case LazyPutClear(_, _) => 8
    case LazyPutTry(_, _) => 9
    case LazyPut(_) => 10
    case Migrate(_, _) => 1 + Remaining(Win(s, Stealer(j)))
  }

  function Remaining(w: Window): nat {
    match w
    case Idle => 0
    case Won(_, _) => 1
    case Unused(_, _) => 2
    case Checked(_, _, _) => 3
    case Loaded(_, _, _) => 4
    case Marked(_, _) => 5
    case Seen(_, _) => 6
  }

  /** What a step on CPU `j` leaves alone. */
  ghost predicate OnlyOn(s: State, s': State, j: Cpu) {
    && s'.curr == s.curr && |s'.rq| == |s.rq| && |s'.slots| == |s.slots|
    && (forall i :: 0 <= i < |s.rq| && i != j ==> s'.rq[i] == s.rq[i])
    && (forall t :: t in s.tasks ==> t in s'.tasks && s'.tasks[t] == s.tasks[t].(cid := s'.tasks[t].cid))
    && (j < |s.rq| ==> Prev(s'.rq[j]) == None || Prev(s'.rq[j]) == Prev(s.rq[j]))
  }

  lemma SectionOnly(s: State, j: Cpu)
    requires Shaped(s) && Enabled(s, Section(j))
    ensures var s' := SectionStep(s, j);
      OnlyOn(s, s', j) && forall i :: 0 <= i < |s.slots| && i != j ==> s'.slots[i] == s.slots[i]
  {
    SectionForgets(s, j);
  }

  lemma SectionRank(s: State, j: Cpu)
    requires Shaped(s) && Enabled(s, Section(j))
    ensures Shaped(SectionStep(s, j)) && |SectionStep(s, j).slots| == |s.slots| && Rank(SectionStep(s, j), j) < Rank(s, j)
  {
    SectionKeepsShape(s, j);
  }

  lemma TakeOnly(s: State, j: Cpu) returns (c: Cid)
    requires Shaped(s) && j < |s.slots| && s.rq[j].Alloc?
    ensures Enabled(s, Take(j, c))
    ensures var s' := Apply(s, Take(j, c)); OnlyOn(s, s', j) && Shaped(s') && Rank(s', j) < Rank(s, j) && s'.slots == s.slots
  {
    c := CidAllocator.FirstFree(s.bits, |s.bits| + 1);
    StepKeepsShape(s, Take(j, c));
  }

  /** A steal towards CPU `j`: it moves on, or it is over. */
  lemma StealOnly(s: State, j: Cpu)
    requires Shaped(s) && j < |s.slots| && s.rq[j].Migrate? && !Win(s, Stealer(j)).Idle?
    ensures var s' := AgentStep(s, Stealer(j)); OnlyOn(s, s', j) && Shaped(s') && Rank(s', j) < Rank(s, j)
  {
    AgentKeepsShape(s, Stealer(j));
    AgentTouches(s, Stealer(j));
    assert WindowShaped(s, Stealer(j), s.windows[Stealer(j)]);
  }

  /** It robs CPU `k`, or leaves its slot alone: it cannot own the id that is in that slot. */
  lemma StealRobsOrNot(s: State, j: Cpu, k: Cpu, c: Cid)
    requires MarkedInUse(s, k, c) && j < |s.slots| && j != k
    requires s.rq[j].Migrate? && !Win(s, Stealer(j)).Idle?
    ensures var s' := AgentStep(s, Stealer(j)); k < |s'.slots| && (s'.slots[k] == Lazy(c) || s'.slots[k] == Unset)
  {
    assert WindowShaped(s, Stealer(j), s.windows[Stealer(j)]);
  }

  /** The next access on CPU `j`. */
  lemma NextAccess(s: State, j: Cpu, k: Cpu, c: Cid) returns (e: Step)
    requires MarkedInUse(s, k, c) && j < |s.slots| && j != k && !s.rq[j].Free?
    ensures Enabled(s, e) && Aside(s, e, k) && OnlyOn(s, Apply(s, e), j) && (e.Advance? ==> e.agent == Stealer(j))
    ensures Shaped(Apply(s, e)) && Rank(Apply(s, e), j) < Rank(s, j)
    ensures Apply(s, e).slots[k] == Lazy(c) || Apply(s, e).slots[k] == Unset
  {
    if s.rq[j].Alloc? {
      var d := TakeOnly(s, j);
      e := Take(j, d);
    } else if s.rq[j].Migrate? {
      if Win(s, Stealer(j)).Idle? {
        e := StealEnd(j);
        StepKeepsShape(s, e);
      } else {
        e := Advance(Stealer(j));
        StealOnly(s, j);
        StealRobsOrNot(s, j, k, c);
      }
    } else {
      e := Section(j);
      SectionOnly(s, j);
      SectionRank(s, j);
    }
  }

  lemma DrainStep(s: State, j: Cpu, b: Agent, k: Cpu, c: Cid, t: Task) returns (e: Step)
    requires Poised(s, b, k, c, t) && j < |s.slots| && j != k && b != Stealer(j) && !s.rq[j].Free?
    ensures Enabled(s, e) && Aside(s, e, k) && OnlyOn(s, Apply(s, e), j)
    ensures Shaped(Apply(s, e)) && Rank(Apply(s, e), j) < Rank(s, j)
    ensures Robbed(Apply(s, e), k, c) || Poised(Apply(s, e), b, k, c, t)
  {
    e := NextAccess(s, j, k, c);
    ClaimStays(s, e, k);
    if Apply(s, e).slots[k] == Lazy(c) { StaysPoised(s, e, b, k, c, t); }
  }

  lemma OnlyOnTwice(s: State, s1: State, s2: State, j: Cpu)
    requires OnlyOn(s, s1, j) && OnlyOn(s1, s2, j)
    ensures OnlyOn(s, s2, j)
  {
  }

  /** The CPU becomes free, or on the way the running task is robbed. */
  lemma {:induction false} Drain(o: State, s: State, j: Cpu, b: Agent, k: Cpu, c: Cid, t: Task) returns (s': State)
    requires ReachesAside(o, s, k) && Poised(s, b, k, c, t) && j < |s.slots| && j != k && b != Stealer(j)
    ensures ReachesAside(o, s', k)
    ensures Robbed(s', k, c) || (Poised(s', b, k, c, t) && OnlyOn(s, s', j) && s'.rq[j].Free?)
    decreases Rank(s, j)
  {
    if s.rq[j].Free? {
      s' := s;
    } else {
      var e := DrainStep(s, j, b, k, c, t);
      s' := Apply(s, e);
      ThenAside(o, s, e, k);
      if !Robbed(s', k, c) {
        var s1 := s';
        s' := Drain(o, s1, j, b, k, c, t);
        if !Robbed(s', k, c) { OnlyOnTwice(s, s1, s', j); }
      }
    }
  }

  // ---- Bringing the watched task to another CPU, out of the mm, and letting the agent finish.

  /** The agent finds that the task does not use the mm, and unsets the slot. */
  lemma AgentFinishes(o: State, s: State, b: Agent, k: Cpu, c: Cid, t: Task) returns (s': State)
    requires ReachesAside(o, s, k) && Poised(s, b, k, c, t) && b != Stealer(k)
    requires !s.tasks[t].member && (Win(s, b).Loaded? ==> !s.tasks[t].active)
    ensures ReachesAside(o, s', k) && Robbed(s', k, c)
  {
    ThenAside(o, s, Advance(b), k);
    ClaimStays(s, Advance(b), k);
    StepSteady(s, Advance(b));
    var s1 := Apply(s, Advance(b));
    assert Win(s1, b) == Unused(k, c) && s1.slots[k] == Lazy(c);
    ThenAside(o, s1, Advance(b), k);
    ClaimStays(s1, Advance(b), k);
    s' := Apply(s1, Advance(b));
  }

  /** A current user on a free CPU gives up its id and leaves the mm. */
  lemma LeavesMm(o: State, s: State, j: Cpu, b: Agent, k: Cpu, c: Cid, t: Task) returns (s': State)
    requires ReachesAside(o, s, k) && Poised(s, b, k, c, t) && j < |s.slots| && j != k && b != Stealer(j)
    requires s.rq[j].Free? && s.curr[j] == t && s.tasks[t].member
    ensures ReachesAside(o, s', k)
    ensures Robbed(s', k, c) || (Poised(s', b, k, c, t) && !s'.tasks[t].member && !s'.tasks[t].active)
  {
    var e := Deactivate(j);
    ThenAside(o, s, e, k);
    StaysPoised(s, e, b, k, c, t);
    var s1 := Apply(s, e);
    s' := Drain(o, s1, j, b, k, c, t);
    if !Robbed(s', k, c) {
      var s2 := s';
      assert s2.curr[j] == t && !s2.tasks[t].active && s2.tasks[t].member;
      ThenAside(o, s2, Detach(j), k);
      StaysPoised(s2, Detach(j), b, k, c, t);
      s' := Apply(s2, Detach(j));
    }
  }

  /** A user on no CPU is switched in on a free one. */
  lemma SwitchesIn(o: State, s: State, j: Cpu, b: Agent, k: Cpu, c: Cid, t: Task) returns (s': State)
    requires ReachesAside(o, s, k) && Poised(s, b, k, c, t) && j < |s.slots| && j != k && b != Stealer(j)
    requires s.rq[j].Free? && !OnCpu(s, t)
    ensures ReachesAside(o, s', k)
    ensures Robbed(s', k, c) || (Poised(s', b, k, c, t) && |s'.slots| == |s.slots| && s'.rq[j].Free? && s'.curr[j] == t
                                 && s'.tasks[t].member == s.tasks[t].member)
  {
    var e := Switch(j, t);
    ThenAside(o, s, e, k);
    StaysPoised(s, e, b, k, c, t);
    s' := Drain(o, Apply(s, e), j, b, k, c, t);
  }

  /** Where to bring the task: where it runs or is being switched away from, and else to the given CPU. */
  lemma Venue(s: State, j: Cpu, b: Agent, k: Cpu, c: Cid, t: Task) returns (i: Cpu)
    requires Poised(s, b, k, c, t) && j < |s.slots| && j != k && b != Stealer(j)
    ensures i < |s.slots| && i != k && b != Stealer(i)
    ensures s.curr[i] == t || forall x :: 0 <= x < |s.rq| ==> s.curr[x] != t && (x != i ==> Prev(s.rq[x]) != Some(t))
  {
    assert WindowShaped(s, b, s.windows[b]);
    if x :| 0 <= x < |s.curr| && s.curr[x] == t {
      i := x;
      assert WatchesElsewhere(s, i);
    } else if x :| 0 <= x < |s.rq| && Prev(s.rq[x]) == Some(t) {
      i := x;
      forall y | 0 <= y < |s.rq| && y != i ensures Prev(s.rq[y]) != Some(t) { assert Apart(s, y, i); }
    } else {
      i := j;
    }
  }

  /** Whatever task the agent watches, the running task can be robbed. */
  lemma WatcherRobs(o: State, s: State, j: Cpu, b: Agent, k: Cpu, c: Cid, t: Task) returns (s': State)
    requires ReachesAside(o, s, k) && Poised(s, b, k, c, t) && j < |s.slots| && j != k && b != Stealer(j) && b != Stealer(k)
    requires s.tasks[t].member
    ensures ReachesAside(o, s', k) && Robbed(s', k, c)
  {
    var i := Venue(s, j, b, k, c, t);
    s' := Drain(o, s, i, b, k, c, t);
    if Robbed(s', k, c) { return; }
    if s'.curr[i] != t {
      assert !OnCpu(s', t);
      s' := SwitchesIn(o, s', i, b, k, c, t);
      if Robbed(s', k, c) { return; }
    }
    s' := LeavesMm(o, s', i, b, k, c, t);
    if Robbed(s', k, c) { return; }
    s' := AgentFinishes(o, s', b, k, c, t);
  }

  // ---- The guard is needed.

  /** The agent will unset the slot by its own accesses alone. */
  predicate Decided(s: State, b: Agent, k: Cpu, c: Cid) {
    match Win(s, b)
    case Unused(j, d) => j == k && d == c
    case Loaded(j, d, t) => j == k && d == c && !Using(s, t)
    case Checked(j, d, t) => j == k && d == c && t in s.tasks && !s.tasks[t].member
    case _ => false
  }

  lemma {:induction false} DecidedRobs(o: State, s: State, b: Agent, k: Cpu, c: Cid) returns (s': State)
    requires ReachesAside(o, s, k) && MarkedInUse(s, k, c) && Decided(s, b, k, c) && b != Stealer(k)
    ensures ReachesAside(o, s', k) && Robbed(s', k, c)
    decreases Remaining(Win(s, b))
  {
    var e := Advance(b);
    assert WindowShaped(s, b, s.windows[b]);
    ThenAside(o, s, e, k);
    ClaimStays(s, e, k);
    s' := Apply(s, e);
    if !Win(s, b).Unused? {
      StepSteady(s, e);
      AgentTouches(s, b);
      s' := DecidedRobs(o, s', b, k, c);
    }
  }

  /** An agent that holds the runqueue of `k` is no danger to it. */
  lemma HolderIsHarmless(s: State, k: Cpu, c: Cid)
    requires Steady(s) && k < |s.slots| && Claim(s, k) == Some(c)
    ensures !Dangerous(s, Stealer(k), k, c)
  {
    assert WatchesElsewhere(s, k);
  }

  /** A dangerous agent: decided, or watching a task that is still a member. */
  lemma DangerousRobs(o: State, s: State, b: Agent, j: Cpu, k: Cpu, c: Cid) returns (s': State)
    requires ReachesAside(o, s, k) && MarkedInUse(s, k, c) && Dangerous(s, b, k, c)
    requires Decided(s, b, k, c) || (j < |s.slots| && j != k && b != Stealer(j))
    ensures ReachesAside(o, s', k) && Robbed(s', k, c)
  {
    HolderIsHarmless(s, k, c);
    assert WindowShaped(s, b, s.windows[b]);
    if Decided(s, b, k, c) {
      s' := DecidedRobs(o, s, b, k, c);
    } else {
      s' := WatcherRobs(o, s, j, b, k, c, Win(s, b).task);
    }
  }

  /**
   Necessity: from every state of the invariant, after a first cmpxchg on an id in use while some
   agent is dangerous to it, and with a CPU that agent does not hold, the slot can become unset under
   the running task without any step of its CPU.
   */
  lemma UndisciplinedRobs(s: State, a: Agent, b: Agent, j: Cpu, k: Cpu, c: Cid) returns (s': State)
    requires SafetyInv(s) && Steady(s) && k < |s.slots| && a != b
    requires Win(s, a) == Seen(k, c) && s.slots[k] == Valid(c) && Claim(s, k) == Some(c) && Dangerous(s, b, k, c)
    requires Decided(s, b, k, c) || (j < |s.slots| && j != k && b != Stealer(j))
    ensures !Disciplined(s, Advance(a))
    ensures Follows(s, Advance(a), Apply(s, Advance(a)))
    ensures ReachesAside(Apply(s, Advance(a)), s', k) && Robbed(s', k, c)
  {
    var s1 := Apply(s, Advance(a));
    StepSteady(s, Advance(a));
    assert SectionFits(s, k);
    AgentFrame(s, a, k);
    AgentTouches(s, a);
    HereAside(s1, k);
    s' := DangerousRobs(s1, s1, b, j, k, c);
  }

  // ---- Without such a CPU an undecided agent gives up.

  /** It watches a task it still takes for a user. */
  predicate Undecided(s: State, b: Agent, k: Cpu, c: Cid, t: Task) {
    && Watching(Win(s, b), k, c, t) && t in s.tasks
    && (if Win(s, b).Loaded? then Using(s, t) else s.tasks[t].member)
  }

  /** Every CPU other than `k` is held by `b`. */
  predicate HoldsAll(s: State, b: Agent, k: Cpu) {
    forall j: Cpu :: j < |s.slots| && j != k ==> b == Stealer(j)
  }

  lemma StaysUndecided(s: State, e: Step, b: Agent, k: Cpu, c: Cid, t: Task)
    requires Steady(s) && Enabled(s, e) && Aside(s, e, k) && k < |s.slots|
    requires Undecided(s, b, k, c, t) && HoldsAll(s, b, k)
    ensures Win(Apply(s, e), b).Idle? || Undecided(Apply(s, e), b, k, c, t)
  {
    if e.Advance? { AgentTouches(s, e.agent); }
    if e.Section? { SectionOnly(s, e.cpu); }
    var x := Where(s, e);
    if x < |s.slots| { assert WatchesElsewhere(s, x); }
  }

  /** On every path without a step of CPU `k`, up to where the agent is idle again, it never comes to unset the slot. */
  lemma {:induction false} UndecidedGivesUp(states: seq<State>, steps: seq<Step>, b: Agent, k: Cpu, c: Cid, t: Task, i: nat)
    requires IsAside(states, steps, k) && i < |states| && Steady(states[0]) && k < |states[0].slots|
    requires Undecided(states[0], b, k, c, t) && HoldsAll(states[0], b, k)
    requires forall m :: 0 <= m < i ==> !Win(states[m], b).Idle?
    ensures Steady(states[i]) && |states[i].slots| == |states[0].slots|
    ensures Win(states[i], b).Idle? || Undecided(states[i], b, k, c, t)
  {
    if i > 0 {
      UndecidedGivesUp(states, steps, b, k, c, t, i - 1);
      assert FollowsAt(states, steps, i - 1) && AsideAt(states, steps, i - 1, k);
      StepSteady(states[i - 1], steps[i - 1]);
      StepKeepsShape(states[i - 1], steps[i - 1]);
      StaysUndecided(states[i - 1], steps[i - 1], b, k, c, t);
    }
  }
}
