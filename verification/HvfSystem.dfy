/**
 Several CPUs: each has its own HVF runqueue, and all of them share the entities, whose on_rq, value
 and times travel with the task. Seen from one CPU, what the others do is one step of HvfRunqueue, so
 the results about one runqueue hold on every CPU; and the life of an entity goes on across CPUs.
 */
module HvfSystem {
  import opened Basics
  import opened HvfTree
  import opened HvfValue
  import E = HvfEntity
  import opened HvfRunqueue
  import opened HvfLives

  /** What belongs to one CPU: struct hvf_rq, the class's share of nr_running, and the HVF task on the CPU. */
  datatype Cpu = Cpu(queue: seq<Id>, curr: Option<Id>, share: int, stamp: map<Id, nat>, ticket: nat, onCpu: Option<Id>)

  datatype Sys = Sys(cpus: seq<Cpu>, ents: map<Id, E.Ent>, now: int)

  /** A step of one CPU. */
  datatype Move = Move(cpu: nat, step: Step)

  predicate Holds(u: Cpu, id: Id) {
    id in u.queue || u.curr == Some(id) || u.onCpu == Some(id)
  }

  function Held(u: Cpu): set<Id> {
    Elems(u.queue) + (if u.curr.Some? then {u.curr.value} else {}) + (if u.onCpu.Some? then {u.onCpu.value} else {})
  }

  /** What the CPUs other than `c` hold. */
  function HeldByOthers(cpus: seq<Cpu>, c: nat): set<Id> {
    set d, id | 0 <= d < |cpus| && d != c && id in Held(cpus[d]) :: id
  }

  lemma HeldByOther(cpus: seq<Cpu>, c: nat, id: Id)
    ensures id in HeldByOthers(cpus, c) <==> exists d: nat :: d < |cpus| && d != c && Holds(cpus[d], id)
  {
    if id in HeldByOthers(cpus, c) {
      var d :| 0 <= d < |cpus| && d != c && id in Held(cpus[d]);
      assert Holds(cpus[d], id);
    }
    if d: nat :| d < |cpus| && d != c && Holds(cpus[d], id) {
      assert id in Held(cpus[d]);
    }
  }

  /** The machine as seen from CPU `c`. */
  function View(y: Sys, c: nat): Track
    requires c < |y.cpus|
  {
    var u := y.cpus[c];
    Track(Rq(u.queue, u.curr, u.share, y.ents, y.now, u.stamp, u.ticket, HeldByOthers(y.cpus, c)), u.onCpu)
  }

  function Own(k: Track): Cpu {
    Cpu(k.r.queue, k.r.curr, k.r.share, k.r.stamp, k.r.ticket, k.onCpu)
  }

  predicate Possible(y: Sys, m: Move) {
    && m.cpu < |y.cpus| && !m.step.Elsewhere?
    && Enabled(View(y, m.cpu).r, m.step) && Orderly(View(y, m.cpu), m.step)
  }

  function Moved(y: Sys, m: Move): Sys
    requires Possible(y, m)
  {
    var k := Next(View(y, m.cpu), m.step);
    Sys(y.cpus[m.cpu := Own(k)], k.r.ents, k.r.now)
  }

  ghost predicate SysInv(y: Sys) {
    forall c: nat :: c < |y.cpus| ==> TrackInv(View(y, c))
  }

  // ---- What a move is for each CPU.

  /** For its own CPU a move is its step. */
  lemma OwnView(y: Sys, m: Move)
    requires SysInv(y) && Possible(y, m)
    ensures View(Moved(y, m), m.cpu) == Next(View(y, m.cpu), m.step)
  {
    StepFrames(View(y, m.cpu).r, m.step);
    var y' := Moved(y, m);
    forall id ensures id in HeldByOthers(y'.cpus, m.cpu) <==> id in HeldByOthers(y.cpus, m.cpu) {
      HeldByOther(y'.cpus, m.cpu, id);
      HeldByOther(y.cpus, m.cpu, id);
      if d: nat :| d < |y.cpus| && d != m.cpu && Holds(y.cpus[d], id) { assert Holds(y'.cpus[d], id); }
      if d: nat :| d < |y.cpus| && d != m.cpu && Holds(y'.cpus[d], id) { assert Holds(y.cpus[d], id); }
    }
    assert HeldByOthers(y'.cpus, m.cpu) == HeldByOthers(y.cpus, m.cpu);
  }

  /** What a CPU holds, no other CPU holds. */
  lemma HeldOnce(y: Sys, c: nat, d: nat, id: Id)
    requires SysInv(y) && c < |y.cpus| && d < |y.cpus| && c != d && Holds(y.cpus[c], id)
    ensures !Holds(y.cpus[d], id) && id in HeldByOthers(y.cpus, d)
  {
    HeldByOther(y.cpus, d, id);
    assert TrackInv(View(y, d));
    Fit(View(y, d).r, id);
  }

  /** What the move looks like from CPU `c`. */
  function Seen(y: Sys, m: Move, c: nat): Step
    requires Possible(y, m)
  {
    if c == m.cpu then m.step
    else var y' := Moved(y, m); Elsewhere(y'.ents, HeldByOthers(y'.cpus, c), y'.now)
  }

  lemma OtherMembers(y: Sys, m: Move, c: nat, id: Id)
    requires SysInv(y) && Possible(y, m) && c < |y.cpus| && c != m.cpu && Holds(y.cpus[c], id)
    requires TrackInv(View(Moved(y, m), m.cpu))
    ensures var y' := Moved(y, m); id !in HeldByOthers(y'.cpus, c) && id in y.ents && id in y'.ents && y'.ents[id] == y.ents[id]
  {
    var y' := Moved(y, m);
    StepFrames(View(y, m.cpu).r, m.step);
    HeldOnce(y, c, m.cpu, id);
    assert TrackInv(View(y, c));
    Fit(View(y, c).r, id);
    HeldByOther(y'.cpus, c, id);
    OwnView(y, m);
    Fit(View(y', m.cpu).r, id);
    forall d: nat | d < |y'.cpus| && d != c ensures !Holds(y'.cpus[d], id) {
      if d != m.cpu { HeldOnce(y, c, d, id); }
    }
  }

  lemma OthersLeftAlone(y: Sys, m: Move, c: nat, id: Id)
    requires SysInv(y) && Possible(y, m) && c < |y.cpus| && c != m.cpu && id in y.ents
    requires TrackInv(View(Moved(y, m), m.cpu)) && id in Moved(y, m).ents
    ensures var y' := Moved(y, m); LeftAlone(View(y, c).r, y'.ents, HeldByOthers(y'.cpus, c), y'.now, id)
  {
    var y' := Moved(y, m);
    Fit(View(y', m.cpu).r, id);
    if Holds(y.cpus[c], id) {
      OtherMembers(y, m, c, id);
      assert TrackInv(View(y, c));
      Fit(View(y, c).r, id);
    } else if id !in HeldByOthers(y'.cpus, c) {
      HeldByOther(y'.cpus, c, id);
      HeldByOther(y'.cpus, m.cpu, id);
      assert !Holds(y'.cpus[m.cpu], id);
    }
  }

  /** For every other CPU a move is a step that leaves its members alone. */
  lemma OtherView(y: Sys, m: Move, c: nat)
    requires SysInv(y) && Possible(y, m) && c < |y.cpus| && c != m.cpu
    requires TrackInv(View(Moved(y, m), m.cpu))
    ensures var k, s := View(y, c), Seen(y, m, c); Enabled(k.r, s) && Orderly(k, s) && View(Moved(y, m), c) == Next(k, s)
  {
    var y' := Moved(y, m);
    var k := View(y, c);
    StepFrames(View(y, m.cpu).r, m.step);
    forall id | id in y'.ents ensures LeftAlone(k.r, y'.ents, HeldByOthers(y'.cpus, c), y'.now, id) {
      OthersLeftAlone(y, m, c, id);
    }
    forall id | id in Members(k.r) ensures id !in HeldByOthers(y'.cpus, c) {
      assert Holds(y.cpus[c], id);
      OtherMembers(y, m, c, id);
    }
    if k.onCpu.Some? { OtherMembers(y, m, c, k.onCpu.value); }
  }

  /** Every CPU sees an enabled, orderly step of its own runqueue. */
  lemma MoveIsAStep(y: Sys, m: Move, c: nat)
    requires SysInv(y) && Possible(y, m) && c < |y.cpus|
    ensures var k, s := View(y, c), Seen(y, m, c); Enabled(k.r, s) && Orderly(k, s) && View(Moved(y, m), c) == Next(k, s)
  {
    OwnView(y, m);
    TrackKeeps(View(y, m.cpu), m.step);
    if c != m.cpu { OtherView(y, m, c); }
  }

  lemma MoveKeeps(y: Sys, m: Move)
    requires SysInv(y) && Possible(y, m)
    ensures SysInv(Moved(y, m)) && |Moved(y, m).cpus| == |y.cpus|
  {
    forall c: nat | c < |y.cpus| ensures TrackInv(View(Moved(y, m), c)) {
      MoveIsAStep(y, m, c);
      TrackKeeps(View(y, c), Seen(y, m, c));
    }
  }

  // ---- Runs of the machine.

  predicate Empty(u: Cpu) {
    u.queue == [] && u.curr == None && u.share == 0 && u.onCpu == None
  }

  /** init_hvf_rq on every CPU, and no entity is on a runqueue. */
  predicate Boot(y: Sys) {
    && |y.cpus| > 0 && (forall c: nat :: c < |y.cpus| ==> Empty(y.cpus[c]))
    && (forall id :: id in y.ents ==> EntOk(y.ents[id], y.now) && !y.ents[id].onRq)
  }

  predicate MovesAt(ys: seq<Sys>, moves: seq<Move>, i: nat) {
    i < |moves| && |ys| == |moves| + 1 && Possible(ys[i], moves[i]) && ys[i + 1] == Moved(ys[i], moves[i])
  }

  predicate IsSysRun(ys: seq<Sys>, moves: seq<Move>) {
    |ys| == |moves| + 1 && Boot(ys[0]) && forall i: nat :: i < |moves| ==> MovesAt(ys, moves, i)
  }

  lemma BootViews(y: Sys, c: nat)
    requires Boot(y) && c < |y.cpus|
    ensures Init(View(y, c).r) && View(y, c).onCpu == None && TrackInv(View(y, c))
  {
    var r := View(y, c).r;
    forall x: Id ensures Fits(r.queue, r.away, r.ents, r.now, r.stamp, r.ticket, x) {
    }
  }

  lemma {:induction false} SysRunKeeps(ys: seq<Sys>, moves: seq<Move>, i: nat)
    requires IsSysRun(ys, moves) && i < |ys|
    ensures SysInv(ys[i]) && |ys[i].cpus| == |ys[0].cpus|
  {
    if i == 0 {
      forall c: nat | c < |ys[0].cpus| ensures TrackInv(View(ys[0], c)) { BootViews(ys[0], c); }
    } else {
      SysRunKeeps(ys, moves, i - 1);
      assert MovesAt(ys, moves, i - 1);
      MoveKeeps(ys[i - 1], moves[i - 1]);
    }
  }

  lemma OnRqIsQueued(y: Sys, id: Id)
    requires SysInv(y) && |y.cpus| > 0 && id in y.ents && y.ents[id].onRq
    ensures exists c: nat :: c < |y.cpus| && id in y.cpus[c].queue
  {
    HeldByOther(y.cpus, 0, id);
    var c: nat := if d: nat :| d < |y.cpus| && d != 0 && Holds(y.cpus[d], id) then d else 0;
    assert TrackInv(View(y, c));
    Fit(View(y, c).r, id);
    assert id in y.cpus[c].queue;
  }

  /** In every run, nobody is a member of two runqueues, and on_rq is set iff the entity is in a tree, which is one tree. */
  lemma InOneTree(ys: seq<Sys>, moves: seq<Move>, i: nat, id: Id)
    requires IsSysRun(ys, moves) && i < |ys| && id in ys[i].ents
    ensures ys[i].ents[id].onRq <==> exists c: nat :: c < |ys[i].cpus| && id in ys[i].cpus[c].queue
    ensures forall c: nat, d: nat :: c < |ys[i].cpus| && d < |ys[i].cpus| && c != d ==> !(Holds(ys[i].cpus[c], id) && Holds(ys[i].cpus[d], id))
  {
    var y := ys[i];
    SysRunKeeps(ys, moves, i);
    forall c: nat | c < |y.cpus| && id in y.cpus[c].queue ensures y.ents[id].onRq {
      assert TrackInv(View(y, c));
      Fit(View(y, c).r, id);
    }
    if y.ents[id].onRq { OnRqIsQueued(y, id); }
    forall c: nat, d: nat | c < |y.cpus| && d < |y.cpus| && c != d && Holds(y.cpus[c], id) ensures !Holds(y.cpus[d], id) {
      HeldOnce(y, c, d, id);
    }
  }

  // ---- Each CPU for itself.

  /** The run as CPU `c` sees it. */
  function Views(ys: seq<Sys>, c: nat): seq<Track>
    requires forall i: nat :: i < |ys| ==> c < |ys[i].cpus|
  {
    seq(|ys|, i requires 0 <= i < |ys| => View(ys[i], c))
  }

  function SeenSteps(ys: seq<Sys>, moves: seq<Move>, c: nat): seq<Step>
    requires |ys| == |moves| + 1 && forall i: nat :: i < |moves| ==> MovesAt(ys, moves, i)
  {
    seq(|moves|, i requires 0 <= i < |moves| => assert MovesAt(ys, moves, i); Seen(ys[i], moves[i], c))
  }

  function Rqs(ks: seq<Track>): seq<Rq> {
    seq(|ks|, i requires 0 <= i < |ks| => ks[i].r)
  }

  lemma TrackedIsRun(ks: seq<Track>, steps: seq<Step>)
    requires IsTracked(ks, steps)
    ensures IsRun(Rqs(ks), steps)
  {
    forall i: nat | i < |steps| ensures FollowsAt(Rqs(ks), steps, i) { assert TracksAt(ks, steps, i); }
  }

  /** Every run of the machine is, on each CPU, a run of its runqueue. */
  lemma RunOnEachCpu(ys: seq<Sys>, moves: seq<Move>, c: nat)
    requires IsSysRun(ys, moves) && c < |ys[0].cpus|
    ensures forall i: nat :: i < |ys| ==> c < |ys[i].cpus|
    ensures IsTracked(Views(ys, c), SeenSteps(ys, moves, c)) && IsRun(Rqs(Views(ys, c)), SeenSteps(ys, moves, c))
  {
    forall i: nat | i < |ys| ensures c < |ys[i].cpus| { SysRunKeeps(ys, moves, i); }
    var ks, steps := Views(ys, c), SeenSteps(ys, moves, c);
    BootViews(ys[0], c);
    forall i: nat | i < |steps| ensures TracksAt(ks, steps, i) {
      SysRunKeeps(ys, moves, i);
      assert MovesAt(ys, moves, i);
      MoveIsAStep(ys[i], moves[i], c);
    }
    TrackedIsRun(ks, steps);
  }

  /**
   On every CPU of every run: the share of nr_running counts the CPU's members, the pick has the
   highest value and among equals was queued first, and the time charged on the CPU has passed.
   */
  lemma EveryCpuIsSound(ys: seq<Sys>, moves: seq<Move>, c: nat, i: nat, x: Id)
    requires IsSysRun(ys, moves) && c < |ys[0].cpus| && i < |ys|
    ensures forall j: nat :: j < |ys| ==> c < |ys[j].cpus|
    ensures var r := View(ys[i], c).r;
      && r.share == |Members(r)|
      && (PickTask(r).None? <==> r.queue == [])
      && (x in r.queue && PickTask(r) != Some(x) ==> Yields(r.ents, r.stamp, x, PickTask(r).value))
    ensures 0 <= Charged(Views(ys, c), SeenSteps(ys, moves, c), i) <= ys[i].now - ys[0].now
  {
    RunOnEachCpu(ys, moves, c);
    var ks, steps := Views(ys, c), SeenSteps(ys, moves, c);
    ShareCountsMembers(Rqs(ks), steps, i);
    PickIsHighestAndOldest(Rqs(ks), steps, i, x);
    ChargesNeverOverlap(ks, steps, i);
  }

  // ---- Lives across CPUs.

  /** The task is on some CPU. */
  predicate OnSomeCpu(y: Sys, id: Id) {
    exists c: nat :: c < |y.cpus| && y.cpus[c].onCpu == Some(id)
  }

  /** The life is that of entity `id` up to now, wherever it ran. */
  ghost predicate Mirrored(l: E.Life, y: Sys, id: Id) {
    && E.LifeInv(l)
    && id in y.ents && l.e == Core(y.ents[id])
    && l.dispatched == OnSomeCpu(y, id) && l.now == y.now
  }

  function EventAt(y: Sys, m: Move, id: Id): E.Event
    requires m.cpu < |y.cpus|
  {
    EventOf(View(y, m.cpu), m.step, id)
  }

  /** Unless another CPU holds the task, it is on some CPU iff it is on this one. */
  lemma OnThisCpu(y: Sys, c: nat, id: Id)
    requires c < |y.cpus| && id !in HeldByOthers(y.cpus, c)
    ensures OnSomeCpu(y, id) <==> y.cpus[c].onCpu == Some(id)
  {
    HeldByOther(y.cpus, c, id);
    if d: nat :| d < |y.cpus| && y.cpus[d].onCpu == Some(id) { assert Holds(y.cpus[d], id); }
  }

  /** A move does not touch what another CPU holds. */
  lemma MoveMissesOthers(y: Sys, m: Move, id: Id)
    requires SysInv(y) && Possible(y, m) && id in HeldByOthers(y.cpus, m.cpu) && id in y.ents
    ensures EventAt(y, m, id) == E.Pass(Moved(y, m).now)
    ensures id in Moved(y, m).ents && Moved(y, m).ents[id] == y.ents[id]
  {
    var k := View(y, m.cpu);
    assert TrackInv(k);
    StepFrames(k.r, m.step);
    PickIsQueued(k.r);
    if PickTask(k.r).Some? { Fit(k.r, PickTask(k.r).value); }
  }

  lemma OthersStayOnCpu(y: Sys, m: Move, id: Id)
    requires SysInv(y) && Possible(y, m) && id in HeldByOthers(y.cpus, m.cpu)
    ensures OnSomeCpu(Moved(y, m), id) == OnSomeCpu(y, id)
  {
    var y' := Moved(y, m);
    assert TrackInv(View(y, m.cpu));
    TrackKeeps(View(y, m.cpu), m.step);
    OwnView(y, m);
    if c: nat :| c < |y.cpus| && y.cpus[c].onCpu == Some(id) { assert c != m.cpu && y'.cpus[c].onCpu == Some(id); }
    if c: nat :| c < |y.cpus| && y'.cpus[c].onCpu == Some(id) { assert c != m.cpu && y.cpus[c].onCpu == Some(id); }
  }

  /** A move of any CPU is one event of every entity's life. */
  lemma MoveMirrors(y: Sys, m: Move, l: E.Life, id: Id)
    requires SysInv(y) && Possible(y, m) && Mirrored(l, y, id)
    ensures E.Enabled(l, EventAt(y, m, id)) && Mirrored(E.Apply(l, EventAt(y, m, id)), Moved(y, m), id)
  {
    var k, v := View(y, m.cpu), EventAt(y, m, id);
    if id in HeldByOthers(y.cpus, m.cpu) {
      MoveMissesOthers(y, m, id);
      OthersStayOnCpu(y, m, id);
      StepFrames(k.r, m.step);
      E.EventKeeps(l, v);
    } else {
      OnThisCpu(y, m.cpu, id);
      StepMirrors(k, m.step, l, id);
      OwnView(y, m);
      OnThisCpu(Moved(y, m), m.cpu, id) by { StepFrames(k.r, m.step); }
    }
  }

  /** Move `i` enqueues the entity from scratch, on whichever CPU. */
  predicate Starts(ys: seq<Sys>, moves: seq<Move>, i: nat, id: Id) {
    && i < |moves| < |ys| && moves[i].cpu < |ys[i].cpus|
    && moves[i].step.Enqueue? && moves[i].step.id == id && moves[i].step.flags.Initial?
    && !Holds(ys[i].cpus[moves[i].cpu], id)
  }

  lemma Born(ys: seq<Sys>, moves: seq<Move>, i: nat, id: Id)
    requires IsSysRun(ys, moves) && Starts(ys, moves, i, id)
    ensures id in ys[i].ents && E.Admissible(Core(ys[i].ents[id]))
    ensures Mirrored(E.Born(Core(ys[i].ents[id]), moves[i].step.now, moves[i].step.flags.sec), ys[i + 1], id)
  {
    var y, m := ys[i], moves[i];
    assert MovesAt(ys, moves, i);
    var k, now, sec := View(y, m.cpu), m.step.now, m.step.flags.sec;
    SysRunKeeps(ys, moves, i);
    assert TrackInv(k);
    Fit(k.r, id);
    EnqueueCore(k.r, id, m.step.flags, now, id);
    RevaluedCore(k.r.ents[id], m.step.flags, now);
    E.StartedInRange(Core(k.r.ents[id]), now, sec);
    OwnView(y, m);
    OnThisCpu(ys[i + 1], m.cpu, id) by { StepFrames(k.r, m.step); }
  }

  /** State `j` of the life is entity `id` in state `i + 1 + j` of the run. */
  ghost predicate StateIs(lives: seq<E.Life>, ys: seq<Sys>, i: nat, j: nat, id: Id) {
    j < |lives| && i + 1 + j < |ys| && Mirrored(lives[j], ys[i + 1 + j], id)
  }

  /** Event `j` of the life is what move `i + 1 + j` of the run is to entity `id`. */
  predicate EventIs(events: seq<E.Event>, ys: seq<Sys>, moves: seq<Move>, i: nat, j: nat, id: Id) {
    && j < |events| && i + 1 + j < |moves| < |ys| && moves[i + 1 + j].cpu < |ys[i + 1 + j].cpus|
    && events[j] == EventAt(ys[i + 1 + j], moves[i + 1 + j], id)
  }

  ghost predicate Matches(lives: seq<E.Life>, events: seq<E.Event>, ys: seq<Sys>, moves: seq<Move>, i: nat, id: Id) {
    && |lives| == |events| + 1 && i + 1 + |events| < |ys| == |moves| + 1
    && (forall j: nat :: j < |lives| ==> StateIs(lives, ys, i, j, id))
    && (forall j: nat :: j < |events| ==> EventIs(events, ys, moves, i, j, id))
  }

  /** From its start at move `i` up to state `n`, what all CPUs together do to the entity is a life. */
  lemma {:induction false} LifeInRun(ys: seq<Sys>, moves: seq<Move>, i: nat, n: nat, id: Id)
    returns (lives: seq<E.Life>, events: seq<E.Event>)
    requires IsSysRun(ys, moves) && Starts(ys, moves, i, id) && i < n < |ys|
    ensures E.IsLife(lives, events) && |events| == n - i - 1 && Matches(lives, events, ys, moves, i, id)
    decreases n
  {
    if n == i + 1 {
      Born(ys, moves, i, id);
      lives, events := [E.Born(Core(ys[i].ents[id]), moves[i].step.now, moves[i].step.flags.sec)], [];
      assert E.Begins(lives[0]);
    } else {
      lives, events := LifeInRun(ys, moves, i, n - 1, id);
      lives, events := OneMore(ys, moves, i, id, lives, events);
    }
  }

  lemma OneMore(ys: seq<Sys>, moves: seq<Move>, i: nat, id: Id, lives: seq<E.Life>, events: seq<E.Event>)
    returns (lives': seq<E.Life>, events': seq<E.Event>)
    requires IsSysRun(ys, moves) && E.IsLife(lives, events) && Matches(lives, events, ys, moves, i, id) && i + 2 + |events| < |ys|
    ensures E.IsLife(lives', events') && |events'| == |events| + 1 && Matches(lives', events', ys, moves, i, id)
  {
    var n := i + 1 + |events|;
    assert MovesAt(ys, moves, n);
    var l, v := lives[|events|], EventAt(ys[n], moves[n], id);
    assert StateIs(lives, ys, i, |events|, id);
    SysRunKeeps(ys, moves, n);
    MoveMirrors(ys[n], moves[n], l, id);
    E.Longer(lives, events, v);
    lives', events' := lives + [E.Apply(l, v)], events + [v];
    MatchesLonger(lives, events, E.Apply(l, v), ys, moves, i, id);
  }

  lemma MatchesLonger(lives: seq<E.Life>, events: seq<E.Event>, l: E.Life, ys: seq<Sys>, moves: seq<Move>, i: nat, id: Id)
    requires Matches(lives, events, ys, moves, i, id) && i + 2 + |events| < |ys|
    requires Mirrored(l, ys[i + 2 + |events|], id) && moves[i + 1 + |events|].cpu < |ys[i + 1 + |events|].cpus|
    ensures Matches(lives + [l], events + [EventAt(ys[i + 1 + |events|], moves[i + 1 + |events|], id)], ys, moves, i, id)
  {
    var lives', events' := lives + [l], events + [EventAt(ys[i + 1 + |events|], moves[i + 1 + |events|], id)];
    forall j: nat | j < |lives'| ensures StateIs(lives', ys, i, j, id) {
      if j < |lives| { assert StateIs(lives, ys, i, j, id); }
    }
    forall j: nat | j < |events'| ensures EventIs(events', ys, moves, i, j, id) {
      if j < |events| { assert EventIs(events, ys, moves, i, j, id); }
    }
  }

  /** In every state of every run: the time an entity has used on all CPUs fits since its start, and its value and slice are in range. */
  lemma RunConservesTime(ys: seq<Sys>, moves: seq<Move>, i: nat, n: nat, id: Id)
    requires IsSysRun(ys, moves) && Starts(ys, moves, i, id) && i < n < |ys|
    ensures id in ys[n].ents
    ensures var e, now := ys[n].ents[id], ys[n].now;
      && 0 <= e.used <= now - e.first
      && (e.answers > 0 ==> e.first <= e.firstAnswer <= now)
      && 0 <= e.value <= H && 10 <= TimeSlice(e.value) <= 109
  {
    var lives, events := LifeInRun(ys, moves, i, n, id);
    var l := lives[|events|];
    assert StateIs(lives, ys, i, |events|, id);
    E.TimeIsConserved(lives, events, |events|);
    E.ValuesStayInRange(lives, events, |events|);
    E.TotalFits(l.busy, l.e.first, l.now);
  }

  /** Move `m` does not recompute the value of the entity. */
  predicate Leaves(moves: seq<Move>, m: nat, id: Id) {
    m < |moves| && (moves[m].step.Enqueue? && moves[m].step.id == id ==> moves[m].step.flags.Plain?)
  }

  /** What switching away from a task, and what leaving its value alone, are in the life. */
  lemma KindOfEvent(events: seq<E.Event>, ys: seq<Sys>, moves: seq<Move>, i: nat, j: nat, id: Id)
    requires EventIs(events, ys, moves, i, j, id)
    ensures var s := moves[i + 1 + j].step; Switches(s) && s.prev == Some(id) ==> events[j] == E.PutPrev(s.now, s.running)
    ensures Leaves(moves, i + 1 + j, id) ==> !events[j].Start? && !events[j].Wake?
  {
  }

  /**
   In every run: once an entity that has used 100 ms is preempted with an expired slice, its value
   stays at most 10 on every CPU until an enqueue recomputes it.
   */
  lemma RunKeepsSpentLow(ys: seq<Sys>, moves: seq<Move>, i: nat, j: nat, n: nat, id: Id)
    requires IsSysRun(ys, moves) && Starts(ys, moves, i, id) && i < j < n < |ys|
    requires Switches(moves[j].step) && moves[j].step.prev == Some(id) && moves[j].step.running
    requires id in ys[j].ents && ys[j].ents[id].expired
    requires id in ys[j + 1].ents && ys[j + 1].ents[id].used >= 100
    requires forall m: nat :: j < m < n ==> Leaves(moves, m, id)
    ensures id in ys[n].ents && ys[n].ents[id].value <= 10
  {
    var lives, events := LifeInRun(ys, moves, i, n, id);
    SpentInLife(lives, events, ys, moves, i, j - i - 1, n - i - 1, id);
  }

  lemma SpentInLife(lives: seq<E.Life>, events: seq<E.Event>, ys: seq<Sys>, moves: seq<Move>, i: nat, j: nat, n: nat, id: Id)
    requires E.IsLife(lives, events) && Matches(lives, events, ys, moves, i, id) && j < n == |events|
    requires var s := moves[i + 1 + j].step; Switches(s) && s.prev == Some(id) && s.running
    requires var e := ys[i + 1 + j].ents; id in e && e[id].expired
    requires var e := ys[i + 2 + j].ents; id in e && e[id].used >= 100
    requires forall m: nat :: i + 1 + j < m < i + 1 + n ==> Leaves(moves, m, id)
    ensures var e := ys[i + 1 + n].ents; id in e && e[id].value <= 10
  {
    assert StateIs(lives, ys, i, j, id) && StateIs(lives, ys, i, j + 1, id) && StateIs(lives, ys, i, n, id);
    KindOfEvent(events, ys, moves, i, j, id);
    forall m: nat | j + 1 <= m < n ensures !events[m].Start? && !events[m].Wake? {
      assert Leaves(moves, i + 1 + m, id);
      KindOfEvent(events, ys, moves, i, m, id);
    }
    E.SpentTaskStaysLow(lives, events, j, n);
  }
}
