/**
 Two runs of the protocol, access by access, that show why CidSafety and CidLazy need their
 premises: the documented guarantee and the "somebody will unset it" argument both fail
 without them.
 */
module CidCounterexamples {
  import opened Basics
  import opened CidModel
  import opened CidSafety
  import opened CidLazy

  // ---- Stretches of a run that start at `o`.

  predicate Ready(s: State, k: Cpu) {
    Shaped(s) && k < |s.slots| && s.rq[k].Free?
  }

  function WithCid(s: State, t: Task, cid: Option<Cid>): map<Task, TaskState>
    requires t in s.tasks
  {
    s.tasks[t := s.tasks[t].(cid := cid)]
  }

  /** From Alloc: take id `c`, store it in the slot, publish it. */
  lemma Allocates(o: State, s: State, k: Cpu, c: Cid) returns (s': State)
    requires Reaches(o, s) && Shaped(s) && k < |s.slots| && s.rq[k].Alloc? && c !in s.bits
    ensures Reaches(o, s') && Shaped(s')
    ensures s' == s.(slots := s.slots[k := Valid(c)], bits := s.bits + {c},
                     rq := s.rq[k := Free], tasks := WithCid(s, s.curr[k], Some(c)))
  {
    s' := Then(o, s, Take(k, c));
    s' := Then(o, s', Section(k));
    s' := Then(o, s', Section(k));
    assert s'.rq == s.rq[k := Free];
  }

  /** A user of the mm is switched in on a CPU without an id. */
  lemma SwitchIn(o: State, s: State, k: Cpu, t: Task, c: Cid) returns (s': State)
    requires Reaches(o, s) && Ready(s, k) && s.slots[k].Unset? && c !in s.bits
    requires !Using(s, s.curr[k]) && Using(s, t) && !OnCpu(s, t)
    ensures Reaches(o, s') && Shaped(s')
    ensures s' == s.(slots := s.slots[k := Valid(c)], bits := s.bits + {c}, curr := s.curr[k := t],
                     tasks := WithCid(s, t, Some(c)))
  {
    s' := Then(o, s, Switch(k, t));
    s' := Then(o, s', Section(k));
    s' := Allocates(o, s', k, c);
    assert s'.rq == s.rq;
  }

  /** The same on a CPU whose slot is lazy: the old id is put first and can be taken again. */
  lemma SwitchInLazy(o: State, s: State, k: Cpu, t: Task) returns (s': State)
    requires Reaches(o, s) && Ready(s, k) && s.slots[k].Lazy? && s.slots[k].cid in s.bits
    requires !Using(s, s.curr[k]) && Using(s, t) && !OnCpu(s, t)
    ensures Reaches(o, s') && Shaped(s')
    ensures s' == s.(slots := s.slots[k := Valid(s.slots[k].cid)], curr := s.curr[k := t],
                     tasks := WithCid(s, t, Some(s.slots[k].cid)))
  {
    var c := s.slots[k].cid;
    s' := Then(o, s, Switch(k, t));
    s' := Then(o, s', Section(k));
    s' := Then(o, s', Section(k));
    s' := Then(o, s', Section(k));
    s' := Allocates(o, s', k, c);
    assert s'.rq == s.rq && s'.bits == s.bits && s'.slots == s.slots[k := Valid(c)];
  }

  /** A user of the mm is switched out; its valid id stays cached in the slot. */
  lemma SwitchOut(o: State, s: State, k: Cpu, n: Task) returns (s': State)
    requires Reaches(o, s) && Ready(s, k) && s.slots[k].Valid?
    requires Using(s, s.curr[k]) && n in s.tasks && !Using(s, n) && !OnCpu(s, n)
    ensures Reaches(o, s') && Shaped(s')
    ensures s' == s.(curr := s.curr[k := n], tasks := WithCid(s, s.curr[k], None))
  {
    s' := Then(o, s, Switch(k, n));
    s' := Then(o, s', Section(k));
    s' := Then(o, s', Section(k));
    assert s'.rq == s.rq;
  }

  /** The current task gives up its id on the way into an exec. */
  lemma Deactivates(o: State, s: State, k: Cpu) returns (s': State)
    requires Reaches(o, s) && Ready(s, k) && s.slots[k].Valid? && Using(s, s.curr[k])
    ensures Reaches(o, s') && Shaped(s')
    ensures s' == s.(slots := s.slots[k := Unset], bits := s.bits - {s.slots[k].cid},
                     tasks := s.tasks[s.curr[k] := TaskState(true, false, None)])
  {
    s' := Then(o, s, Deactivate(k));
    s' := Then(o, s', Section(k));
    s' := Puts(o, s', k);
    assert s'.rq == s.rq && s'.tasks == s.tasks[s.curr[k] := TaskState(true, false, None)];
  }

  lemma Puts(o: State, s: State, k: Cpu) returns (s': State)
    requires Reaches(o, s) && Shaped(s) && k < |s.slots| && s.slots[k].Valid? && s.rq[k] == PutTry(s.slots[k].cid, false)
    ensures Reaches(o, s') && Shaped(s')
    ensures s' == s.(slots := s.slots[k := Unset], bits := s.bits - {s.slots[k].cid},
                     rq := s.rq[k := Free], tasks := WithCid(s, s.curr[k], None))
  {
    s' := Then(o, s, Section(k));
    s' := Then(o, s', Section(k));
    s' := Then(o, s', Section(k));
    assert s'.rq == s.rq[k := Free];
  }

  /** A clearer sets the lazy flag and loads rq->curr. */
  lemma MarkAndLoad(o: State, s: State, a: Agent, k: Cpu) returns (s': State)
    requires Reaches(o, s) && Shaped(s) && k < |s.slots| && a.Clearer? && Win(s, a).Idle? && s.slots[k].Valid?
    ensures Reaches(o, s') && Shaped(s')
    ensures s' == s.(slots := s.slots[k := Lazy(s.slots[k].cid)],
                     windows := s.windows[a := Loaded(k, s.slots[k].cid, s.curr[k])])
  {
    s' := Then(o, s, Look(a, k));
    s' := Then(o, s', Advance(a));
    s' := Then(o, s', Advance(a));
    assert s'.windows == s.windows[a := Loaded(k, s.slots[k].cid, s.curr[k])];
  }

  /** It sees an active task of the mm and leaves. */
  lemma SeeActive(o: State, s: State, a: Agent) returns (s': State)
    requires Reaches(o, s) && Shaped(s) && Win(s, a).Loaded? && Using(s, Win(s, a).task)
    ensures Reaches(o, s') && Shaped(s') && s' == s.(windows := s.windows[a := Idle])
  {
    s' := Then(o, s, Advance(a));
    s' := Then(o, s', Advance(a));
    assert s'.windows == s.windows[a := Idle];
  }

  /** A clearer that decided "unused" finds the flag still set, unsets the slot and frees the id. */
  lemma Finishes(o: State, s: State, a: Agent) returns (s': State)
    requires Reaches(o, s) && Shaped(s) && a.Clearer? && Win(s, a).Unused? && s.slots[Win(s, a).cpu] == Lazy(Win(s, a).cid)
    ensures Reaches(o, s') && Shaped(s')
    ensures s' == s.(slots := s.slots[Win(s, a).cpu := Unset], bits := s.bits - {Win(s, a).cid}, windows := s.windows[a := Idle])
  {
    s' := Then(o, s, Advance(a));
    s' := Then(o, s', Advance(a));
    assert s'.windows == s.windows[a := Idle];
  }

  // ---- Two CPUs with their idle tasks 0 and 1; tasks 2 and 3 share the mm.

  const IDLE := TaskState(false, false, None)
  const USER := TaskState(true, true, None)

  function Tasks(y: TaskState, z: TaskState): map<Task, TaskState> {
    map[0 := IDLE, 1 := IDLE, 2 := y, 3 := z]
  }

  function Start(): State {
    State([Unset, Unset], [0, 1], [Free, Free], {}, map[], Tasks(USER, USER))
  }

  /** A clearer decided that the id task 2 left on CPU 0 is unused; before its second cmpxchg, 2 came back and got that id again. */
  function Reallocated(): State {
    State([Valid(0), Unset], [2, 1], [Free, Free], {0}, map[Clearer(0) := Unused(0, 0)],
          Tasks(USER.(cid := Some(0)), USER))
  }

  /** Task 2 ran on CPU 0 and left its id cached there. */
  function Cached(): State {
    State([Valid(0), Unset], [0, 1], [Free, Free], {0}, map[], Tasks(USER, USER))
  }

  lemma ReachCached()
    ensures Init(Start()) && Reaches(Start(), Cached())
  {
    var o := Start();
    ReachesSelf(o);
    var s := SwitchIn(o, o, 0, 2, 0);
    assert s == State([Valid(0), Unset], [2, 1], [Free, Free], {0}, map[], Tasks(USER.(cid := Some(0)), USER));
    s := SwitchOut(o, s, 0, 0);
    assert s == Cached();
  }

  lemma ReachReallocated()
    ensures Reaches(Start(), Reallocated())
  {
    var o := Start();
    ReachCached();
    var s := MarkAndLoad(o, Cached(), Clearer(0), 0);
    s := Then(o, s, Advance(Clearer(0)));
    assert s == State([Lazy(0), Unset], [0, 1], [Free, Free], {0}, map[Clearer(0) := Unused(0, 0)], Tasks(USER, USER));
    s := SwitchInLazy(o, s, 0, 2);
    assert s == Reallocated();
  }

  /** The guarantee fails: a second clearer sets the flag, the first unsets the id in use, and another task gets it too. */
  lemma OverlappingClearsShareAnId() returns (s: State)
    ensures Init(Start()) && Reaches(Start(), s) && Shaped(s) && |s.slots| == 2
    ensures Claim(s, 0) == Some(0) && Claim(s, 1) == Some(0)
  {
    ReachCached();
    ReachRobbed();
    s := SwitchIn(Start(), Robbed(), 1, 3, 0);
  }

  /** The slot of CPU 0 is unset and id 0 is free, while task 2 runs there with id 0. */
  function Robbed(): State {
    State([Unset, Unset], [2, 1], [Free, Free], {}, map[Clearer(0) := Idle, Clearer(1) := Idle],
          Tasks(USER.(cid := Some(0)), USER))
  }

  lemma ReachRobbed()
    ensures Reaches(Start(), Robbed()) && Shaped(Robbed())
  {
    ReachReallocated();
    var o := Start();
    var s := MarkAndLoad(o, Reallocated(), Clearer(1), 0);
    s := SeeActive(o, s, Clearer(1));
    s := Finishes(o, s, Clearer(0));
    assert s == Robbed();
  }

  // ---- The orphaned lazy id.

  /** Task 3 is in an exec on CPU 0, inactive; task 2 ran there meanwhile and left id 0. */
  function Execing(): State {
    State([Valid(0), Unset], [3, 1], [Free, Free], {0}, map[], Tasks(USER, USER.(active := false)))
  }

  /** Task 3 is in an exec on CPU 0, without an id. */
  function Entered(): State {
    State([Unset, Unset], [3, 1], [Free, Free], {}, map[], Tasks(USER, USER.(active := false)))
  }

  lemma ReachEntered()
    ensures Init(Start()) && Reaches(Start(), Entered())
  {
    var o := Start();
    ReachesSelf(o);
    var s := SwitchIn(o, o, 0, 3, 0);
    s := Deactivates(o, s, 0);
    assert s == Entered();
  }

  lemma ReachExecing()
    ensures Reaches(Start(), Execing())
  {
    ReachEntered();
    var o := Start();
    var s := SwitchIn(o, Entered(), 0, 2, 0);
    s := SwitchOut(o, s, 0, 3);
    assert s == Execing();
  }

  /** A clearer holds a pointer to task 3, which has moved to CPU 1 in between. */
  function Moved(): State {
    State([Lazy(0), Unset], [0, 3], [Free, Free], {0}, map[Clearer(0) := Loaded(0, 0, 3)], Tasks(USER, USER.(active := false)))
  }

  lemma ReachMoved()
    ensures Reaches(Start(), Moved()) && Shaped(Moved())
  {
    ReachExecing();
    var o := Start();
    var s := MarkAndLoad(o, Execing(), Clearer(0), 0);
    s := Then(o, s, Switch(0, 0));
    s := Then(o, s, Switch(1, 3));
    assert s == Moved();
  }

  /** The clearer loads rq->curr while task 3 is there; 3 moves to CPU 1, its exec fails, and the clearer takes it for a user of CPU 0. */
  lemma ReactivationOrphansALazyId() returns (s: State)
    ensures Init(Start()) && Reaches(Start(), s) && Shaped(s) && |s.slots| == 2
    ensures s.slots[0] == Lazy(0) && !Attended(s, 0)
    ensures forall a :: Win(s, a).Idle?
  {
    ReachEntered();
    ReachMoved();
    var o := Start();
    s := Then(o, Moved(), Activate(1));
    s := SeeActive(o, s, Clearer(0));
    assert s.windows == map[Clearer(0) := Idle];
  }
}
