/**
 The per-mm concurrency-id (mm_cid) protocol of one mm, as a state machine.

 Every load, store, bit operation and cmpxchg on shared memory is one atomic step, so a
 run is an arbitrary interleaving of context switches, exec/exit sections, migration
 steals and remote clears. Sequential consistency stands for the barriers the protocol
 documents; holding a runqueue lock is the program counter `RqPc` of that runqueue.
 */
module CidModel {
  import opened Basics

  type Cpu = nat
  type Cid = nat
  type Task = nat

  /** The per-mm/cpu word: MM_CID_UNSET, a plain id, or an id with MM_CID_LAZY_PUT set. */
  datatype Slot = Unset | Valid(cid: Cid) | Lazy(cid: Cid)

  /** Who may try to take an id away from a slot without that slot's runqueue lock. */
  datatype Agent =
    | Clearer(id: nat)     // sched_mm_cid_remote_clear
    | Stealer(dst: Cpu)    // sched_mm_cid_migrate_to, running under the lock of `dst`

  /** Program counter of an agent; `Marked` to `Unused` is the window between its two cmpxchgs. */
  datatype Window =
    | Idle
    | Seen(cpu: Cpu, cid: Cid)                  // loaded a valid id
    | Marked(cpu: Cpu, cid: Cid)                // set the lazy flag
    | Loaded(cpu: Cpu, cid: Cid, task: Task)    // loaded rq->curr
    | Checked(cpu: Cpu, cid: Cid, task: Task)   // saw mm_cid_active set, about to load ->mm
    | Unused(cpu: Cpu, cid: Cid)                // saw no active task of this mm
    | Won(cpu: Cpu, cid: Cid)                   // unset the slot: owns the id

  /** Program counter of the section running under a runqueue lock. */
  datatype RqPc =
    | Free
    // switch_mm_cid, after the store to rq->curr: mm_cid_put_lazy(prev)
    | LazyPut(prev: Task)
    | LazyPutTry(prev: Task, cid: Cid)
    | LazyPutClear(prev: Task, cid: Cid)
    | Leave(prev: Task)                         // prev->mm_cid = -1
    // mm_cid_get for the current task
    | Get
    | GetTry(cid: Cid)
    | GetClear(cid: Cid)
    | Alloc
    | Install(cid: Cid)
    | Publish(cid: Cid)                         // t->mm_cid = cid
    // mm_cid_put for the current task (exit, exec)
    | Put
    | PutTry(cid: Cid, lazy: bool)
    | PutClear(cid: Cid)
    | Forget                                    // t->mm_cid = -1
    // sched_mm_cid_migrate_to with this runqueue as destination
    | Migrate(src: Cpu, dstSet: bool)

  datatype TaskState = TaskState(member: bool, active: bool, cid: Option<Cid>)

  datatype State = State(
    slots: seq<Slot>,
    curr: seq<Task>,
    rq: seq<RqPc>,
    bits: set<Cid>,
    windows: map<Agent, Window>,
    tasks: map<Task, TaskState>)

  function Win(s: State, a: Agent): Window {
    if a in s.windows then s.windows[a] else Idle
  }

  /** `t->mm_cid_active && t->mm == mm` */
  predicate Using(s: State, t: Task) {
    t in s.tasks && s.tasks[t].active && s.tasks[t].member
  }

  /** The task a context switch under way has switched away from. */
  function Prev(pc: RqPc): Option<Task> {
    match pc
    case LazyPut(p) => Some(p)
    case LazyPutTry(p, _) => Some(p)
    case LazyPutClear(p, _) => Some(p)
    case Leave(p) => Some(p)
    case _ => None
  }

  /** The task is on a CPU, or a switch away from it has not finished. */
  predicate OnCpu(s: State, t: Task) {
    (exists k :: 0 <= k < |s.curr| && s.curr[k] == t) ||
    (exists k :: 0 <= k < |s.rq| && Prev(s.rq[k]) == Some(t))
  }

  datatype Step =
    | Switch(cpu: Cpu, next: Task)                       // store to rq->curr
    | Section(cpu: Cpu)                                  // next access of the locked section
    | Take(cpu: Cpu, cid: Cid)                           // test-and-set of a clear bit
    | Deactivate(cpu: Cpu)                               // exit, before execve
    | Activate(cpu: Cpu)                                 // after execve
    | Detach(cpu: Cpu)                                   // current task drops this mm
    | Elsewhere(cpu: Cpu, active: bool)                  // the flag of a task of another mm
    | Fork(task: Task)
    | StealBegin(dst: Cpu, src: Cpu, dstSet: bool)
    | StealEnd(dst: Cpu)
    | Look(agent: Agent, cpu: Cpu)                       // load of the slot, before the first cmpxchg
    | Advance(agent: Agent)                              // next access of the agent

  predicate Shaped(s: State) {
    && |s.curr| == |s.slots| && |s.rq| == |s.slots|
    && (forall k :: 0 <= k < |s.curr| ==> s.curr[k] in s.tasks)
    && (forall k :: 0 <= k < |s.rq| && Prev(s.rq[k]).Some? ==> Prev(s.rq[k]).value in s.tasks)
    && (forall a :: a in s.windows ==> WindowShaped(s, a, s.windows[a]))
  }

  predicate WindowShaped(s: State, a: Agent, w: Window) {
    && (!w.Idle? ==> w.cpu < |s.slots|)
    && (w.Loaded? || w.Checked? ==> w.task in s.tasks)
    && (a.Stealer? && !w.Idle? ==> a.dst < |s.rq| && s.rq[a.dst].Migrate? && s.rq[a.dst].src == w.cpu)
  }

  /** The current task may run: no section of its own is under way. */
  predicate Unlocked(pc: RqPc) {
    pc.Free? || pc.Migrate?
  }

  predicate Enabled(s: State, e: Step)
    requires Shaped(s)
  {
    match e
    case Switch(k, next) => k < |s.rq| && s.rq[k].Free? && next in s.tasks && !OnCpu(s, next)
    case Section(k) => k < |s.rq| && !s.rq[k].Free? && !s.rq[k].Alloc? && !s.rq[k].Migrate?
    case Take(k, c) => k < |s.rq| && s.rq[k].Alloc? && c !in s.bits
    case Deactivate(k) => k < |s.rq| && s.rq[k].Free? && s.tasks[s.curr[k]].member
    case Activate(k) => k < |s.rq| && s.rq[k].Free? && s.tasks[s.curr[k]].member && !s.tasks[s.curr[k]].active
    // these two are the current task's own and need no lock, so a steal may hold it
    case Detach(k) => k < |s.rq| && Unlocked(s.rq[k]) && s.tasks[s.curr[k]].member && !s.tasks[s.curr[k]].active
    case Elsewhere(k, _) => k < |s.rq| && Unlocked(s.rq[k]) && !s.tasks[s.curr[k]].member
    case Fork(t) => t !in s.tasks
    case StealBegin(dst, src, dstSet) =>
      dst < |s.rq| && src < |s.rq| && s.rq[dst].Free? && (s.slots[dst] != Unset ==> dstSet)
    case StealEnd(dst) => dst < |s.rq| && s.rq[dst].Migrate? && Win(s, Stealer(dst)).Idle?
    case Look(a, k) =>
      && k < |s.slots| && Win(s, a).Idle?
      && (a.Stealer? ==> a.dst < |s.rq| && s.rq[a.dst].Migrate? && s.rq[a.dst].src == k)
    case Advance(a) => !Win(s, a).Idle?
  }

  /** The next access of the section running under the lock of runqueue `k`. */
  function SectionStep(s: State, k: Cpu): State
    requires Shaped(s) && Enabled(s, Section(k))
  {
    var t := s.curr[k];
    var slot := s.slots[k];
    match s.rq[k]
    case LazyPut(p) => s.(rq := s.rq[k := if slot.Lazy? then LazyPutTry(p, slot.cid) else Leave(p)])
    case LazyPutTry(p, c) =>
      if slot == Lazy(c) then s.(slots := s.slots[k := Unset], rq := s.rq[k := LazyPutClear(p, c)])
      else s.(rq := s.rq[k := Leave(p)])
    case LazyPutClear(p, c) => s.(bits := s.bits - {c}, rq := s.rq[k := Leave(p)])
    case Leave(p) =>
      s.(tasks := s.tasks[p := s.tasks[p].(cid := None)], rq := s.rq[k := if Using(s, t) then Get else Free])
    case Get =>
      s.(rq := s.rq[k := if slot.Valid? then Publish(slot.cid) else if slot.Lazy? then GetTry(slot.cid) else Alloc])
    case GetTry(c) =>
      if slot == Lazy(c) then s.(slots := s.slots[k := Unset], rq := s.rq[k := GetClear(c)])
      else s.(rq := s.rq[k := Alloc])
    case GetClear(c) => s.(bits := s.bits - {c}, rq := s.rq[k := Alloc])
    case Install(c) => s.(slots := s.slots[k := Valid(c)], rq := s.rq[k := Publish(c)])
    case Publish(c) => s.(tasks := s.tasks[t := s.tasks[t].(cid := Some(c))], rq := s.rq[k := Free])
    case Put => s.(rq := s.rq[k := if slot.Unset? then Forget else PutTry(slot.cid, slot.Lazy?)])
    case PutTry(c, lazy) =>
      if slot == (if lazy then Lazy(c) else Valid(c)) then
        s.(slots := s.slots[k := Unset], rq := s.rq[k := PutClear(c)])
      else s.(rq := s.rq[k := if slot.Unset? then Forget else PutTry(slot.cid, slot.Lazy?)])
    case PutClear(c) => s.(bits := s.bits - {c}, rq := s.rq[k := Forget])
    case Forget => s.(tasks := s.tasks[t := s.tasks[t].(cid := None)], rq := s.rq[k := Free])
  }

  /** The next access of a remote clear or of a migration steal. */
  function AgentStep(s: State, a: Agent): State
    requires Shaped(s) && Enabled(s, Advance(a))
  {
    match Win(s, a)
    case Seen(k, c) =>
      if s.slots[k] == Valid(c) then
        s.(slots := s.slots[k := Lazy(c)], windows := s.windows[a := Marked(k, c)])
      else s.(windows := s.windows[a := Idle])
    case Marked(k, c) => s.(windows := s.windows[a := Loaded(k, c, s.curr[k])])
    case Loaded(k, c, t) => s.(windows := s.windows[a := if s.tasks[t].active then Checked(k, c, t) else Unused(k, c)])
    case Checked(k, c, t) => s.(windows := s.windows[a := if s.tasks[t].member then Idle else Unused(k, c)])
    case Unused(k, c) =>
      if s.slots[k] == Lazy(c) then
        s.(slots := s.slots[k := Unset], windows := s.windows[a := Won(k, c)])
      else s.(windows := s.windows[a := Idle])
    case Won(k, c) =>
      if a.Stealer? && !s.rq[a.dst].dstSet then
        s.(slots := s.slots[a.dst := Valid(c)], windows := s.windows[a := Idle], rq := s.rq[a.dst := Free])
      else s.(bits := s.bits - {c}, windows := s.windows[a := Idle])
  }

  function Apply(s: State, e: Step): State
    requires Shaped(s) && Enabled(s, e)
  {
    match e
    case Switch(k, next) =>
      var prev := s.curr[k];
      s.(curr := s.curr[k := next],
         rq := s.rq[k := if Using(s, prev) then LazyPut(prev) else if Using(s, next) then Get else Free])
    case Section(k) => SectionStep(s, k)
    case Take(k, c) => s.(bits := s.bits + {c}, rq := s.rq[k := Install(c)])
    case Deactivate(k) =>
      s.(tasks := s.tasks[s.curr[k] := s.tasks[s.curr[k]].(active := false)], rq := s.rq[k := Put])
    case Activate(k) =>
      s.(tasks := s.tasks[s.curr[k] := s.tasks[s.curr[k]].(active := true)], rq := s.rq[k := Get])
    case Detach(k) => s.(tasks := s.tasks[s.curr[k] := s.tasks[s.curr[k]].(member := false)])
    case Elsewhere(k, b) => s.(tasks := s.tasks[s.curr[k] := s.tasks[s.curr[k]].(active := b)])
    case Fork(t) => s.(tasks := s.tasks[t := TaskState(true, true, None)])
    case StealBegin(dst, src, dstSet) => s.(rq := s.rq[dst := Migrate(src, dstSet)])
    case StealEnd(dst) => s.(rq := s.rq[dst := Free])
    case Look(a, k) =>
      if s.slots[k].Valid? then s.(windows := s.windows[a := Seen(k, s.slots[k].cid)]) else s
    case Advance(a) => AgentStep(s, a)
  }

  /** A new mm: no id handed out, nobody running on it yet. */
  predicate Init(s: State) {
    && Shaped(s)
    && (forall k :: 0 <= k < |s.slots| ==> s.slots[k].Unset? && s.rq[k].Free? && !Using(s, s.curr[k]))
    && (forall i, j :: 0 <= i < j < |s.curr| ==> s.curr[i] != s.curr[j])
    && s.bits == {} && s.windows == map[]
    && (forall t :: t in s.tasks ==> s.tasks[t].cid == None)
  }

  ghost predicate Follows(s: State, e: Step, s': State) {
    Shaped(s) && Enabled(s, e) && s' == Apply(s, e)
  }

  ghost predicate FollowsAt(states: seq<State>, steps: seq<Step>, i: nat) {
    i < |steps| && |states| == |steps| + 1 && Follows(states[i], steps[i], states[i + 1])
  }

  ghost predicate IsPath(states: seq<State>, steps: seq<Step>) {
    |states| == |steps| + 1 && forall i: nat :: i < |steps| ==> FollowsAt(states, steps, i)
  }

  /** A run from an initial state: one step between consecutive states. */
  ghost predicate IsRun(states: seq<State>, steps: seq<Step>) {
    IsPath(states, steps) && Init(states[0])
  }

  /** There is a sequence of steps from `s` to `t`. */
  ghost predicate Reaches(s: State, t: State) {
    exists states: seq<State>, steps: seq<Step> :: IsPath(states, steps) && states[0] == s && states[|steps|] == t
  }

  lemma ReachesSelf(s: State)
    ensures Reaches(s, s)
  {
    assert IsPath([s], []);
  }

  /** One more step at the end of a path. */
  lemma Then(s: State, t: State, e: Step) returns (u: State)
    requires Reaches(s, t) && Shaped(t) && Enabled(t, e)
    ensures u == Apply(t, e) && Shaped(u) && Reaches(s, u)
  {
    StepKeepsShape(t, e);
    u := Apply(t, e);
    var states: seq<State>, steps: seq<Step> :| IsPath(states, steps) && states[0] == s && states[|steps|] == t;
    var states', steps' := states + [u], steps + [e];
    forall i: nat | i < |steps'| ensures FollowsAt(states', steps', i) {
      if i < |steps| { assert FollowsAt(states, steps, i); }
    }
    assert IsPath(states', steps');
  }

  lemma SectionKeepsShape(s: State, k: Cpu)
    requires Shaped(s) && Enabled(s, Section(k))
    ensures Shaped(SectionStep(s, k))
  {
    var s' := SectionStep(s, k);
    assert s'.windows == s.windows && s'.tasks.Keys == s.tasks.Keys && s'.curr == s.curr;
    assert forall j :: 0 <= j < |s.rq| && j != k ==> s'.rq[j] == s.rq[j];
    assert !s.rq[k].Migrate?;
    forall a | a in s'.windows ensures WindowShaped(s', a, s'.windows[a]) {
      assert WindowShaped(s, a, s.windows[a]);
    }
  }

  lemma AgentKeepsShape(s: State, a: Agent)
    requires Shaped(s) && Enabled(s, Advance(a))
    ensures Shaped(AgentStep(s, a))
  {
    var s' := AgentStep(s, a);
    assert s'.tasks == s.tasks && s'.curr == s.curr && |s'.slots| == |s.slots|;
    assert WindowShaped(s, a, s.windows[a]);
    assert forall k :: 0 <= k < |s.rq| && a != Stealer(k) ==> s'.rq[k] == s.rq[k];
    forall b | b in s'.windows ensures WindowShaped(s', b, s'.windows[b]) {
      if b != a { assert WindowShaped(s, b, s.windows[b]); }
    }
  }

  /** The CPU on which a step that is not an agent's happens; past all of them for the others. */
  function Where(s: State, e: Step): Cpu {
    match e
    case Switch(k, _) => k
    case Section(k) => k
    case Take(k, _) => k
    case Deactivate(k) => k
    case Activate(k) => k
    case Detach(k) => k
    case Elsewhere(k, _) => k
    case _ => |s.slots|
  }

  /** An agent changes no task and no other agent, and frees at most its own runqueue. */
  lemma AgentTouches(s: State, a: Agent)
    requires Shaped(s) && Enabled(s, Advance(a))
    ensures var s' := AgentStep(s, a);
      && s'.tasks == s.tasks && s'.curr == s.curr && |s'.slots| == |s.slots| && |s'.rq| == |s.rq|
      && (forall b :: b != a ==> Win(s', b) == Win(s, b))
      && (forall k :: 0 <= k < |s.rq| ==> s'.rq[k] == s.rq[k] || (s.rq[k].Migrate? && s'.rq[k].Free?))
  {
    assert WindowShaped(s, a, s.windows[a]);
  }

  lemma QuietKeepsShape(s: State, e: Step)
    requires Shaped(s) && Enabled(s, e) && !e.Section? && !e.Advance? && !e.Look?
    ensures Shaped(Apply(s, e))
  {
    var s' := Apply(s, e);
    assert s'.windows == s.windows && s.tasks.Keys <= s'.tasks.Keys && s'.slots == s.slots;
    forall a | a in s'.windows ensures WindowShaped(s', a, s'.windows[a]) {
      assert WindowShaped(s, a, s.windows[a]);
    }
  }

  /** Steps lead from well-shaped states to well-shaped states, so no run gets stuck on its shape. */
  lemma StepKeepsShape(s: State, e: Step)
    requires Shaped(s) && Enabled(s, e)
    ensures Shaped(Apply(s, e)) && |Apply(s, e).slots| == |s.slots|
  {
    match e
    case Section(k) => SectionKeepsShape(s, k);
    case Advance(a) => AgentKeepsShape(s, a);
    case Look(a, k) =>
    case _ => QuietKeepsShape(s, e);
  }

  /** No task is on both CPUs, counting the one that is still switching away from it. */
  predicate Apart(s: State, i: nat, j: nat) {
    && (i < |s.curr| && j < |s.curr| && s.curr[i] == s.curr[j] ==> i == j)
    && (i < |s.rq| && j < |s.curr| ==> Prev(s.rq[i]) != Some(s.curr[j]))
    && (i < |s.rq| && j < |s.rq| && Prev(s.rq[i]).Some? && Prev(s.rq[i]) == Prev(s.rq[j]) ==> i == j)
  }

  /** A task is on at most one CPU. */
  ghost predicate RunsOnce(s: State) {
    forall i: nat, j: nat :: Apart(s, i, j)
  }

  lemma SwitchKeepsRunsOnce(s: State, k: Cpu, next: Task)
    requires Shaped(s) && Enabled(s, Switch(k, next)) && RunsOnce(s)
    ensures RunsOnce(Apply(s, Switch(k, next)))
  {
    var s' := Apply(s, Switch(k, next));
    forall i: nat, j: nat ensures Apart(s', i, j) {
      assert Apart(s, i, j) && Apart(s, i, k) && Apart(s, j, k) && Apart(s, k, j);
    }
  }

  /** Nobody is switched in, and a finished switch forgets its previous task. */
  lemma QuietKeepsRunsOnce(s: State, s': State)
    requires RunsOnce(s) && s'.curr == s.curr && |s'.rq| == |s.rq|
    requires forall j :: 0 <= j < |s.rq| ==> Prev(s'.rq[j]) == None || Prev(s'.rq[j]) == Prev(s.rq[j])
    ensures RunsOnce(s')
  {
    forall i: nat, j: nat ensures Apart(s', i, j) {
      assert Apart(s, i, j);
    }
  }

  lemma SectionForgets(s: State, k: Cpu)
    requires Shaped(s) && Enabled(s, Section(k))
    ensures var s' := SectionStep(s, k);
      && s'.curr == s.curr && |s'.rq| == |s.rq|
      && forall j :: 0 <= j < |s.rq| ==> Prev(s'.rq[j]) == None || Prev(s'.rq[j]) == Prev(s.rq[j])
  {
    var s' := SectionStep(s, k);
    assert Prev(s'.rq[k]) == None || Prev(s'.rq[k]) == Prev(s.rq[k]);
    assert forall j :: 0 <= j < |s.rq| && j != k ==> s'.rq[j] == s.rq[j];
  }

  lemma StepKeepsRunsOnce(s: State, e: Step)
    requires Shaped(s) && Enabled(s, e) && RunsOnce(s)
    ensures RunsOnce(Apply(s, e))
  {
    if e.Switch? {
      SwitchKeepsRunsOnce(s, e.cpu, e.next);
    } else {
      if e.Section? { SectionForgets(s, e.cpu); }
      if e.Advance? { AgentTouches(s, e.agent); }
      QuietKeepsRunsOnce(s, Apply(s, e));
    }
  }

  lemma InitRunsOnce(s: State)
    requires Init(s)
    ensures RunsOnce(s)
  {
    forall i: nat, j: nat ensures Apart(s, i, j) {
    }
  }
}
