/**
 What the HVF code does not enforce, and exactly when it matters: rewriting the value of a queued
 entity, and switching away from a current task that is not in the running state.
 */
module HvfPremises {
  import opened Basics
  import opened HvfTree
  import opened HvfValue
  import E = HvfEntity
  import opened HvfRunqueue

  // ---- enqueue_task_hvf recomputes the value without testing on_rq.

  lemma YieldsTransitive(ents: map<Id, E.Ent>, stamp: map<Id, nat>, a: Id, b: Id, c: Id)
    requires Yields(ents, stamp, a, b) && Yields(ents, stamp, b, c)
    ensures Yields(ents, stamp, a, c)
  {
  }

  /** The entity still fits between its two neighbours. */
  predicate BetweenNeighbours(queue: seq<Id>, ents: map<Id, E.Ent>, stamp: map<Id, nat>, i: nat)
    requires i < |queue|
  {
    && (i > 0 ==> Yields(ents, stamp, queue[i - 1], queue[i]))
    && (i + 1 < |queue| ==> Yields(ents, stamp, queue[i], queue[i + 1]))
  }

  /** The other entities are in the order they were in. */
  lemma OthersInOrder(r: Rq, id: Id, e: E.Ent, a: nat, b: nat)
    requires Inv(r) && a < b < |r.queue| && r.queue[a] != id && r.queue[b] != id
    ensures Yields(r.ents[id := e], r.stamp, r.queue[a], r.queue[b])
  {
    assert Below(r.queue, Order(r.ents, r.stamp), a, b);
  }

  lemma NeighboursSuffice(r: Rq, id: Id, e: E.Ent, a: nat, b: nat)
    requires Inv(r) && id in r.queue && a < b < |r.queue|
    requires BetweenNeighbours(r.queue, r.ents[id := e], r.stamp, IndexOf(r.queue, id))
    ensures Yields(r.ents[id := e], r.stamp, r.queue[a], r.queue[b])
  {
    var s, ents, i := r.queue, r.ents[id := e], IndexOf(r.queue, id);
    PairwiseNoDup(s, r.ents, r.stamp);
    if a != i && b != i {
      OthersInOrder(r, id, e, a, b);
    } else if b == i && a < i - 1 {
      OthersInOrder(r, id, e, a, i - 1);
      YieldsTransitive(ents, r.stamp, s[a], s[i - 1], s[i]);
    } else if a == i && b > i + 1 {
      OthersInOrder(r, id, e, i + 1, b);
      YieldsTransitive(ents, r.stamp, s[i], s[i + 1], s[b]);
    }
  }

  /** Rewriting a queued entity keeps the tree in order iff it still fits between its neighbours. */
  lemma RewriteKeepsOrderIff(r: Rq, id: Id, e: E.Ent, now: int)
    requires Inv(r) && id in r.queue && r.now <= now && EntOk(e, now) && e.onRq
    ensures QueueOk(Stored(r, id, e, now)) <==> BetweenNeighbours(r.queue, r.ents[id := e], r.stamp, IndexOf(r.queue, id))
  {
    var s, ents, i := r.queue, r.ents[id := e], IndexOf(r.queue, id);
    var order := Order(ents, r.stamp);
    if QueueOk(Stored(r, id, e, now)) {
      assert i > 0 ==> Below(s, order, i - 1, i);
      assert Below(s, order, i, i + 1);
    }
    if BetweenNeighbours(s, ents, r.stamp, i) {
      forall a: nat, b: nat | a < b < |s| ensures Below(s, order, a, b) { NeighboursSuffice(r, id, e, a, b); }
      forall x: Id ensures Fits(s, r.away, ents, now, r.stamp, r.ticket, x) { Fit(r, x); }
    }
  }

  // ---- A run after which such a rewrite misleads the pick.

  /** Announces 100 s with deadlines at 1000 s and 2000 s, which is worth 100. */
  const HIGH := E.Ent(0, 0, 0, 0, 0, 0, false, 0, 0, false, true, 1000, 2000, 100_000)

  /** Announces 140 s with deadlines at 100 s and 200 s, which is worth 60. */
  const LOW := E.Ent(0, 0, 0, 0, 0, 0, false, 0, 0, false, true, 100, 200, 140_000)

  /** The entities as enqueued at time 0. */
  const HIGH_QUEUED := HIGH.(initValue := 100, value := 100, onRq := true)
  const LOW_QUEUED := LOW.(initValue := 60, value := 60, onRq := true)

  /** The first one dispatched at time 0. */
  const RUNNING := HIGH_QUEUED.(onRq := false, answers := 1)

  const TICK := 10_000_000

  /** After `k` ticks of 10 ms: the eleventh reaches the slice of 109 ms. */
  function Ticking(k: nat): E.Ent {
    RUNNING.(runtime := k * TICK, expired := k >= 11)
  }

  /** Put back at 110 ms: its value is down to 0. */
  const BACK := Ticking(11).(used := 110, value := 0, expired := false, onRq := true)

  lemma HighStarts()
    ensures Revalued(HIGH, Initial(0), 0) == HIGH_QUEUED.(onRq := false)
  {
  }

  lemma LowStarts()
    ensures Revalued(LOW, Initial(0), 0) == LOW_QUEUED.(onRq := false)
  {
    DivUnique(6_000_000, 100_000, 60);
    assert InitValue(140_000, 100, 200) == 60;
  }

  lemma OneMoreTick(k: nat)
    ensures E.Ticked(Ticking(k), TICK) == Ticking(k + 1)
  {
    assert TimeSlice(100) == 109;
  }

  lemma LateSettles()
    ensures Settled(Ticking(11), true, 110) == BACK.(onRq := false)
  {
    ReducedToNothing(110, 100);
  }

  /** Where an entity of this value goes: behind `p` smaller values. */
  predicate GoesTo(r: Rq, id: Id, value: int, p: nat) {
    && p <= |r.queue| && id !in r.queue
    && (forall j :: 0 <= j < p ==> ValueOf(r.ents, r.queue[j]) < value)
    && (p < |r.queue| ==> value <= ValueOf(r.ents, r.queue[p]))
  }

  /** `r` with `id` queued as `e` at place `p`. */
  function With(r: Rq, id: Id, e: E.Ent, p: nat): Rq
    requires p <= |r.queue|
  {
    r.(queue := InsertedAt(r.queue, p, id), ents := r.ents[id := e], stamp := r.stamp[id := r.ticket], ticket := r.ticket + 1)
  }

  /** Queueing an entity that has not used more than it announced. */
  lemma QueuedAt(r: Rq, id: Id, p: nat)
    requires id in r.ents && r.ents[id].used <= r.ents[id].ctime && GoesTo(r, id, r.ents[id].value, p)
    ensures Queued(r, id) == With(r, id, r.ents[id].(onRq := true), p)
  {
    PlaceIsUnique(r.queue, Val(Queued(r, id).ents), r.ents[id].value, p);
  }

  lemma HighEnqueue(r: Rq, id: Id, p: nat)
    requires id in r.ents && r.ents[id] == HIGH && r.curr != Some(id) && r.now == 0 && GoesTo(r, id, 100, p)
    ensures EnqueueTask(r, id, Initial(0), 0) == With(r, id, HIGH_QUEUED, p).(share := r.share + 1)
  {
    HighStarts();
    var q := Stored(r, id, HIGH_QUEUED.(onRq := false), 0);
    QueuedAt(q, id, p);
    assert q.ents[id := HIGH_QUEUED] == r.ents[id := HIGH_QUEUED];
  }

  lemma LowEnqueue(r: Rq, id: Id, p: nat)
    requires id in r.ents && r.ents[id] == LOW && r.curr != Some(id) && r.now == 0 && GoesTo(r, id, 60, p)
    ensures EnqueueTask(r, id, Initial(0), 0) == With(r, id, LOW_QUEUED, p).(share := r.share + 1)
  {
    LowStarts();
    var q := Stored(r, id, LOW_QUEUED.(onRq := false), 0);
    QueuedAt(q, id, p);
    assert q.ents[id := LOW_QUEUED] == r.ents[id := LOW_QUEUED];
  }

  /** Storing the entity first changes neither where it goes nor what comes of it. */
  lemma StoredFirst(r: Rq, id: Id, e0: E.Ent, e: E.Ent, now: int, p: nat)
    requires id in r.ents && GoesTo(r, id, e.value, p)
    ensures GoesTo(Stored(r, id, e0, now), id, e.value, p)
    ensures With(Stored(r, id, e0, now), id, e, p) == With(r, id, e, p).(now := now)
  {
    assert r.ents[id := e0][id := e] == r.ents[id := e];
  }

  lemma BackAt(r: Rq, id: Id, e: E.Ent, now: int, p: nat)
    requires id in r.ents && e.onRq && e.used <= e.ctime && GoesTo(r, id, e.value, p)
    ensures PutBack(Stored(r, id, e.(onRq := false), now), id) == With(r, id, e, p).(now := now, curr := None)
  {
    StoredFirst(r, id, e.(onRq := false), e, now, p);
    var q := Stored(r, id, e.(onRq := false), now);
    QueuedAt(q, id, p);
    assert PutBack(q, id) == Queued(q, id).(curr := None);
  }

  lemma LatePut(r: Rq, id: Id, e: E.Ent, p: nat)
    requires id in r.ents && r.ents[id] == Ticking(11) && e == BACK && GoesTo(r, id, e.value, p)
    ensures PutPrevTask(r, id, true, 110) == With(r, id, e, p).(now := 110, curr := None)
  {
    LateSettles();
    BackAt(r, id, e, 110, p);
  }

  // ---- One step at a time, from a reached state to the next.

  ghost predicate Reached(r: Rq) {
    exists rs: seq<Rq>, steps: seq<Step> :: IsRun(rs, steps) && rs[|steps|] == r
  }

  lemma Then(r: Rq, s: Step, r': Rq)
    requires Reached(r) && Follows(r, s, r')
    ensures Reached(r')
  {
    var rs: seq<Rq>, steps: seq<Step> :| IsRun(rs, steps) && rs[|steps|] == r;
    var rs', steps' := rs + [r'], steps + [s];
    forall i: nat | i < |steps'| ensures FollowsAt(rs', steps', i) {
      if i < |steps| { assert FollowsAt(rs, steps, i); }
    }
    assert IsRun(rs', steps');
  }

  lemma HighNext(r: Rq, id: Id, p: nat, r': Rq)
    requires Reached(r) && id in r.ents && id !in r.away && r.ents[id] == HIGH && r.curr != Some(id) && r.now == 0 && GoesTo(r, id, 100, p)
    requires r' == With(r, id, HIGH_QUEUED, p).(share := r.share + 1)
    ensures Reached(r')
  {
    HighEnqueue(r, id, p);
    Then(r, Enqueue(id, Initial(0), 0), r');
  }

  lemma LowNext(r: Rq, id: Id, p: nat, r': Rq)
    requires Reached(r) && id in r.ents && id !in r.away && r.ents[id] == LOW && r.curr != Some(id) && r.now == 0 && GoesTo(r, id, 60, p)
    requires r' == With(r, id, LOW_QUEUED, p).(share := r.share + 1)
    ensures Reached(r')
  {
    LowEnqueue(r, id, p);
    Then(r, Enqueue(id, Initial(0), 0), r');
  }

  lemma PickNext(r: Rq, id: Id, r': Rq)
    requires Reached(r) && r.curr == None && r.now == 0 && PickTask(r) == Some(id) && id in r.ents && r.ents[id] == HIGH_QUEUED
    requires r' == r.(queue := if id in r.queue then Without(r.queue, id) else r.queue, ents := r.ents[id := RUNNING], curr := Some(id))
    ensures Reached(r')
  {
    assert r.ents[id := HIGH_QUEUED.(onRq := false)][id := RUNNING] == r.ents[id := RUNNING];
    Then(r, Schedule(None, true, 0), r');
  }

  lemma TickNext(r: Rq, id: Id, k: nat, r': Rq)
    requires Reached(r) && r.curr == Some(id) && id in r.ents && r.ents[id] == Ticking(k) && r.now == 10 * k
    requires r' == r.(ents := r.ents[id := Ticking(k + 1)], now := 10 * (k + 1))
    ensures Reached(r')
  {
    OneMoreTick(k);
    Then(r, Tick(TICK, 10 * (k + 1)), r');
  }

  lemma PutNext(r: Rq, id: Id, now: int, r': Rq)
    requires Reached(r) && id in r.ents && id !in r.away && r.curr == Some(id) && r.now <= now && r' == PutPrevTask(r, id, true, now)
    ensures Reached(r')
  {
    Then(r, PickOther(Some(id), true, now), r');
  }

  lemma LateNext(r: Rq, id: Id, p: nat, r': Rq)
    requires Reached(r) && id in r.ents && id !in r.away && r.ents[id] == Ticking(11) && r.curr == Some(id) && r.now <= 110
    requires GoesTo(r, id, 0, p) && r' == With(r, id, BACK, p).(now := 110, curr := None)
    ensures Reached(r')
  {
    LatePut(r, id, BACK, p);
    PutNext(r, id, 110, r');
  }

  function State(queue: seq<Id>, curr: Option<Id>, share: int, e0: E.Ent, e1: E.Ent, now: int, stamp: map<Id, nat>, ticket: nat): Rq {
    Rq(queue, curr, share, map[0 := e0, 1 := e1], now, stamp, ticket, {})
  }

  // Both are enqueued from scratch; the first is dispatched, uses up its slice in eleven ticks of
  // 10 ms, and is preempted by another class.

  function S0(): Rq { State([], None, 0, HIGH, LOW, 0, map[], 0) }
  function S1(): Rq { State([0], None, 1, HIGH_QUEUED, LOW, 0, map[0 := 0], 1) }
  function S2(): Rq { State([1, 0], None, 2, HIGH_QUEUED, LOW_QUEUED, 0, map[0 := 0, 1 := 1], 2) }
  function S3(): Rq { State([1], Some(0), 2, RUNNING, LOW_QUEUED, 0, map[0 := 0, 1 := 1], 2) }
  function S4(k: nat): Rq { State([1], Some(0), 2, Ticking(k), LOW_QUEUED, 10 * k, map[0 := 0, 1 := 1], 2) }
  function S5(): Rq { State([0, 1], None, 2, BACK, LOW_QUEUED, 110, map[0 := 2, 1 := 1], 3) }

  lemma Reach1()
    ensures Reached(S1())
  {
    assert IsRun([S0()], []);
    assert Reached(S0());
    assert S0().ents[0 := HIGH_QUEUED] == S1().ents && InsertedAt([], 0, 0) == [0];
    HighNext(S0(), 0, 0, S1());
  }

  lemma Reach2()
    ensures Reached(S2())
  {
    Reach1();
    assert S1().ents[1 := LOW_QUEUED] == S2().ents && InsertedAt([0], 0, 1) == [1, 0];
    LowNext(S1(), 1, 0, S2());
  }

  lemma Reach3()
    ensures Reached(S3())
  {
    Reach2();
    assert IndexOf([1, 0], 0) == 1 && Without([1, 0], 0) == [1];
    assert S2().ents[0 := RUNNING] == S3().ents;
    PickNext(S2(), 0, S3());
  }

  lemma {:induction false} Reach4(k: nat)
    ensures Reached(S4(k))
  {
    if k == 0 {
      Reach3();
      assert S4(0) == S3();
    } else {
      Reach4(k - 1);
      assert S4(k - 1).ents[0 := Ticking(k)] == S4(k).ents;
      TickNext(S4(k - 1), 0, k - 1, S4(k));
    }
  }

  lemma LastState()
    ensures S5() == With(S4(11), 0, BACK, 0).(now := 110, curr := None) && GoesTo(S4(11), 0, 0, 0)
  {
    var r := S4(11);
    assert r.ents[0 := BACK] == S5().ents && InsertedAt([1], 0, 0) == [0, 1] && r.stamp[0 := 2] == S5().stamp;
  }

  lemma Reach5()
    ensures Reached(S5())
  {
    Reach4(11);
    LastState();
    LateNext(S4(11), 0, 0, S5());
  }

  /**
   There is a run at whose end the tree is in order with values 0 and 60. An enqueue that
   recomputes 0 where it stands gives it the value 100, and the pick still returns 1.
   */
  lemma RewriteMisleadsPick() returns (rs: seq<Rq>, steps: seq<Step>)
    ensures IsRun(rs, steps) && rs[|steps|] == S5() && Inv(S5())
    ensures 0 in S5().ents && CanRevalue(S5().ents[0], Recompute)
    ensures var q := EnqueueTask(S5(), 0, Recompute, 110);
      PickTask(q) == Some(1) && ValueOf(q.ents, 0) == H && ValueOf(q.ents, 1) == 60 && !QueueOk(q)
  {
    Reach5();
    rs, steps :| IsRun(rs, steps) && rs[|steps|] == S5();
    RunKeeps(rs, steps, |steps|);
    Misled();
  }

  lemma Misled()
    ensures var q := EnqueueTask(S5(), 0, Recompute, 110);
      PickTask(q) == Some(1) && ValueOf(q.ents, 0) == H && ValueOf(q.ents, 1) == 60 && !QueueOk(q)
  {
    var q := EnqueueTask(S5(), 0, Recompute, 110);
    assert q.queue == [0, 1] && ValueOf(q.ents, 0) == 100 && ValueOf(q.ents, 1) == 60;
    assert !Below(q.queue, Order(q.ents, q.stamp), 0, 1);
  }

  // ---- put_prev_task_hvf neither queues nor forgets a current task that is not running.

  /** Switching from the current task `id` to the pick, whatever state `id` is in. */
  function SwitchFrom(r: Rq, id: Id, running: bool, now: int): Rq
    requires id in r.ents
  {
    AfterSet(PutPrevTask(r, id, running, now), PickTask(r), now)
  }

  /** The share still counts the members iff the task is running, or there is nothing to switch to. */
  lemma SwitchConservesIff(r: Rq, id: Id, running: bool, now: int)
    requires Inv(r) && r.curr == Some(id) && id in r.ents && r.now <= now
    ensures var q := SwitchFrom(r, id, running, now);
      q.share == |Members(q)| <==> running || r.queue == []
    ensures !running && r.queue != [] ==> id !in Members(SwitchFrom(r, id, running, now))
  {
    var q := SwitchFrom(r, id, running, now);
    if running {
      ScheduleKeeps(r, Some(id), true, now);
      CountMembers(q);
    } else {
      Fit(r, id);
      var e := Settled(r.ents[id], false, now);
      UpdateKeeps(r, id, e, now);
      var p := Stored(r, id, e, now);
      if r.queue == [] {
        CountMembers(p);
      } else {
        var next := PickTask(r).value;
        var p' := p.(curr := None, share := p.share - 1);
        Fit(p', next);
        SetNextKeeps(p', next, now);
        CountMembers(SetNextTask(p', next, now));
        assert q == SetNextTask(p', next, now).(share := q.share);
      }
    }
  }
}
