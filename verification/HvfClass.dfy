/**
 The HVF scheduling class on its own state: struct hvf_rq with the cached maximum and the queue
 counter, updated in place. Every operation is proved to do what the runqueue machine does, and
 to keep the cache equal to the last node of the tree.
 */
module HvfClass {
  import opened Basics
  import opened HvfTree
  import opened HvfValue
  import E = HvfEntity
  import opened HvfRunqueue
  import X = HvfEffects

  /** The cached maximum after an insertion: the next node after the old one iff the new value is larger. */
  lemma MaxAfterQueued(r: Rq, id: Id)
    requires QueueOk(r) && id in r.ents && id !in r.queue && r.queue != []
    ensures var q, m := Queued(r, id), r.queue[|r.queue| - 1];
      && m in q.queue
      && Last(q.queue) == if ValueOf(q.ents, m) < ValueOf(q.ents, id) then NextOf(q.queue, m) else Some(m)
  {
    var q := Queued(r, id);
    var s, n := r.queue, |r.queue|;
    var m, p := s[n - 1], Place(s, Val(q.ents), q.ents[id].value);
    QueuedOrder(r, id);
    PairwiseNoDup(q.queue, q.ents, q.stamp);
    assert m != id && Val(q.ents)(m) == ValueOf(q.ents, m);
    if ValueOf(q.ents, m) < ValueOf(q.ents, id) {
      AtEnd(r, id);
      assert q.queue == s + [id];
      IndexIsUnique(q.queue, n - 1);
    } else {
      assert p < n && q.queue[n] == m;
    }
  }

  /** A value above the last one is above all of them. */
  lemma AtEnd(r: Rq, id: Id)
    requires QueueOk(r) && id in r.ents && id !in r.queue && r.queue != []
    requires ValueOf(Queued(r, id).ents, r.queue[|r.queue| - 1]) < ValueOf(Queued(r, id).ents, id)
    ensures Place(r.queue, Val(Queued(r, id).ents), Queued(r, id).ents[id].value) == |r.queue|
  {
    var q, s := Queued(r, id), r.queue;
    OrderFrame(s, r.ents, r.stamp, q.ents, q.stamp);
    SortedByValue(s, q.ents, q.stamp);
    var p := Place(s, Val(q.ents), q.ents[id].value);
    if p < |s| - 1 { assert false; }
  }

  /** The cache update of enqueue_hvf_entity, once `id` is in the tree. */
  function CacheAfter(max: Option<Id>, queue: seq<Id>, ents: map<Id, E.Ent>, id: Id): Option<Id>
    requires max.Some? ==> max.value in queue
  {
    if max.None? then Last(queue)
    else if ValueOf(ents, max.value) < ValueOf(ents, id) then NextOf(queue, max.value)
    else max
  }

  lemma CacheAfterQueued(r: Rq, id: Id)
    requires QueueOk(r) && id in r.ents && id !in r.queue
    ensures var q := Queued(r, id);
      && (r.queue != [] ==> r.queue[|r.queue| - 1] in q.queue)
      && CacheAfter(Last(r.queue), q.queue, q.ents, id) == Last(q.queue)
      && |q.queue| == |r.queue| + 1
  {
    if r.queue != [] { MaxAfterQueued(r, id); }
  }

  /** The cached maximum after a removal: the node before the old one iff the maximum is removed. */
  lemma MaxAfterWithout(s: seq<Id>, id: Id)
    requires NoDup(s) && id in s
    ensures Last(Without(s, id)) == if Last(s) == Some(id) then PrevOf(s, id) else Last(s)
  {
    var i := IndexOf(s, id);
    IndexIsUnique(s, |s| - 1);
    if i < |s| - 1 { assert Without(s, id)[|s| - 2] == s[|s| - 1]; }
  }

  /** The premises of a tree insertion hold in every ordered runqueue. */
  lemma ReadyToInsert(r: Rq, id: Id)
    requires QueueOk(r) && id in r.ents && id !in r.queue
    ensures var val := Val(Queued(r, id).ents);
      Sorted(r.queue, val) && 0 <= val(id) <= H && forall i :: 0 <= i < |r.queue| ==> 0 <= val(r.queue[i]) <= H
  {
    var q := Queued(r, id);
    OrderFrame(r.queue, r.ents, r.stamp, q.ents, q.stamp);
    SortedByValue(r.queue, q.ents, q.stamp);
    Fit(r, id);
    E.EnteringInRange(r.ents[id]);
    forall i | 0 <= i < |r.queue| ensures 0 <= Val(q.ents)(r.queue[i]) <= H {
      Fit(r, r.queue[i]);
    }
  }

  /** Penalty, insertion into the tree and the update of the cached maximum. */
  method Link(tree: Tree, max: Option<Id>, ents: map<Id, E.Ent>, id: Id, rebalance: Tree -> Tree, ghost r: Rq)
    returns (tree': Tree, max': Option<Id>, ents': map<Id, E.Ent>)
    requires QueueOk(r) && id in ents && id !in r.away && !ents[id].onRq && ents == r.ents
    requires KeepsOrder(rebalance) && InOrder(tree) == r.queue && max == Last(r.queue)
    ensures InOrder(tree') == Queued(r, id).queue && ents' == Queued(r, id).ents
    ensures max' == Last(InOrder(tree')) && |InOrder(tree')| == |InOrder(tree)| + 1
  {
    Fit(r, id);
    ReadyToInsert(r, id);
    CacheAfterQueued(r, id);
    var e := Penalize(ents[id]);
    ents' := ents[id := e.(onRq := true)];
    tree' := Insert(tree, id, Val(ents'), rebalance);
    max' := CacheAfter(max, InOrder(tree'), ents', id);
  }

  /** Removal from the tree and the update of the cached maximum. */
  method Unlink(tree: Tree, max: Option<Id>, id: Id, rebalance: Tree -> Tree) returns (tree': Tree, max': Option<Id>)
    requires KeepsOrder(rebalance) && NoDup(InOrder(tree)) && id in InOrder(tree) && max == Last(InOrder(tree))
    ensures InOrder(tree') == Without(InOrder(tree), id) && max' == Last(InOrder(tree')) && |InOrder(tree')| == |InOrder(tree)| - 1
  {
    MaxAfterWithout(InOrder(tree), id);
    max' := if max == Some(id) then PrevOf(InOrder(tree), id) else max;
    var i := IndexOf(InOrder(tree), id);
    EraseInOrder(tree, i);
    tree' := Erase(tree, i);
    assert KeepsOrderOf(rebalance, tree');
    tree' := rebalance(tree');
  }

  /** What enqueue_task_hvf does to the entity before queueing it. */
  method Revalue(e: E.Ent, flags: Flags, now: int) returns (e': E.Ent)
    requires CanRevalue(e, flags)
    ensures e' == Revalued(e, flags, now)
  {
    e' := e;
    match flags {
      case Initial(sec) =>
        e' := E.WithDefaults(e', sec);
        e' := E.Initialized(e', now);
        e' := E.Computed(e');
      case Recompute =>
        e' := E.Computed(e');
      case Plain =>
    }
  }

  /** exceeded_time and penalty_hvf_entity: the value an entity enters the tree with. */
  method Penalize(e: E.Ent) returns (e': E.Ent)
    ensures e' == E.Entering(e)
  {
    e' := e;
    if e.used > e.ctime {
      e' := e.(value := Penalized(e.used, e.ctime, e.value));
    }
  }

  /** update_used_se_hvf, and reduce_sched_value for a task that is still runnable. */
  method Settle(e: E.Ent, running: bool, now: int) returns (e': E.Ent)
    ensures e' == Settled(e, running, now)
  {
    e' := E.Accounted(e, now);
    if running {
      if e'.expired {
        e' := e'.(value := Reduced(e'.used, e'.value), expired := false);
      }
    }
  }

  lemma RevalueKeeps(r: Rq, id: Id, flags: Flags, now: int)
    requires Inv(r) && Enabled(r, Enqueue(id, flags, now))
    ensures QueueOk(Stored(r, id, Revalued(r.ents[id], flags, now), now))
    ensures Inv(EnqueueTask(r, id, flags, now))
  {
    Fit(r, id);
    RevaluedOk(r.ents[id], flags, now, r.now);
    UpdateKeeps(r, id, Revalued(r.ents[id], flags, now), now);
    EnqueueKeeps(r, id, flags, now);
  }

  lemma SettleKeeps(r: Rq, id: Id, running: bool, now: int)
    requires Inv(r) && id in r.ents && r.now <= now && r.curr == (if running then Some(id) else None)
    ensures QueueOk(Stored(r, id, Settled(r.ents[id], running, now), now))
    ensures Inv(PutPrevTask(r, id, running, now))
  {
    Fit(r, id);
    E.DecayedInRange(E.Accounted(r.ents[id], now));
    UpdateKeeps(r, id, Settled(r.ents[id], running, now), now);
    PutPrevKeeps(r, id, running, now);
  }

  lemma ScheduleReady(r: Rq, prev: Option<Id>, running: bool, now: int)
    requires Inv(r) && Enabled(r, Step.Schedule(prev, running, now))
    ensures Inv(AfterPut(r, prev, running, now)) && Inv(Reschedule(r, prev, running, now))
    ensures Last(r.queue).Some? ==> Last(r.queue).value in AfterPut(r, prev, running, now).ents
    ensures Reschedule(r, prev, running, now).curr == Last(r.queue)
  {
    AfterPutKeeps(r, prev, running, now);
    ScheduleKeeps(r, prev, running, now);
    if r.queue != [] { Fit(AfterPut(r, prev, running, now), r.queue[|r.queue| - 1]); }
  }

  const EINVAL: int := 22

  class HvfRq {
    var tree: Tree
    var max: Option<Id>                 // max_value_entity
    var curr: Option<Id>
    var nrQueued: int                   // nr_hvf_queued
    var nrRunning: int                  // nr_running of the enclosing runqueue
    var ents: map<Id, E.Ent>            // shared with the runqueues of other CPUs
    var now: int                        // the last clock reading
    const rebalance: Tree -> Tree
    ghost const others: int             // what the other classes add to nr_running
    ghost var stamp: map<Id, nat>
    ghost var ticket: nat
    ghost var away: set<Id>             // the entities other runqueues hold

    ghost function Abs(): Rq
      reads this
    {
      Rq(InOrder(tree), curr, nrRunning - others, ents, now, stamp, ticket, away)
    }

    /** The cached maximum and the counter agree with the tree. */
    ghost predicate Sound()
      reads this
    {
      && max == Last(InOrder(tree)) && nrQueued == |InOrder(tree)|
      && KeepsOrder(rebalance)
    }

    ghost predicate Valid()
      reads this
    {
      Sound() && Inv(Abs())
    }

    /** init_hvf_rq, for entities that are not on any runqueue */
    constructor (ents: map<Id, E.Ent>, now: int, nrRunning: int, rebalance: Tree -> Tree)
      requires KeepsOrder(rebalance) && forall id :: id in ents ==> !ents[id].onRq && EntOk(ents[id], now)
      ensures Valid() && Init(Abs()) && this.ents == ents && this.nrRunning == nrRunning && away == {}
    {
      tree, max, curr, nrQueued := Leaf, None, None, 0;
      this.ents, this.now, this.nrRunning, this.rebalance := ents, now, nrRunning, rebalance;
      others, stamp, ticket, away := nrRunning, map[], 0, {};
    }

    /** Penalty, insertion, counter and cached maximum: the fields enqueue_hvf_entity changes. */
    method InsertEntity(id: Id, ghost r: Rq)
      requires Sound() && r == Abs() && QueueOk(r) && id in ents && id !in away && !ents[id].onRq
      modifies `tree, `max, `ents, `nrQueued
      ensures Sound() && InOrder(tree) == Queued(r, id).queue && ents == Queued(r, id).ents
    {
      tree, max, ents := Link(tree, max, ents, id, rebalance, r);
      nrQueued := nrQueued + 1;
    }

    /** enqueue_hvf_entity */
    method EnqueueEntity(id: Id)
      requires Sound() && QueueOk(Abs()) && id in ents && id !in away && !ents[id].onRq
      modifies this
      ensures Sound() && Abs() == Queued(old(Abs()), id)
    {
      InsertEntity(id, Abs());
      stamp, ticket := stamp[id := ticket], ticket + 1;
    }

    /** dequeue_hvf_entity */
    method DequeueEntity(id: Id)
      requires Sound() && QueueOk(Abs()) && id in ents && id !in away && ents[id].onRq
      modifies this
      ensures Sound() && Abs() == Unqueued(old(Abs()), id)
    {
      Fit(Abs(), id);
      PairwiseNoDup(InOrder(tree), ents, stamp);
      tree, max := Unlink(tree, max, id, rebalance);
      nrQueued := nrQueued - 1;
      ents := ents[id := ents[id].(onRq := false)];
    }

    /** pick_task_hvf: None is the idle task */
    method PickTask() returns (next: Option<Id>)
      requires Valid()
      ensures next == HvfRunqueue.PickTask(Abs())
      ensures next.None? <==> InOrder(tree) == []
      ensures next.Some? ==> forall x :: x in InOrder(tree) && x != next.value ==> Yields(ents, stamp, x, next.value)
    {
      if tree.Leaf? {
        return None;
      }
      next := max;
      var s := InOrder(tree);
      forall x | x in s && x != next.value ensures Yields(ents, stamp, x, next.value) {
        assert Below(s, Order(ents, stamp), IndexOf(s, x), |s| - 1);
      }
    }

    /** The part of enqueue_task_hvf after the entity has been stored. */
    method AdmitEntity(id: Id)
      requires Sound() && QueueOk(Abs()) && id in ents && id !in away
      modifies this
      ensures Sound() && Abs() == Admit(old(Abs()), id)
    {
      if Some(id) != curr && !ents[id].onRq {
        EnqueueEntity(id);
        nrRunning := nrRunning + 1;
      }
    }

    /** enqueue_task_hvf */
    method EnqueueTask(id: Id, flags: Flags, now: int)
      requires Valid() && Enabled(Abs(), Enqueue(id, flags, now))
      modifies this
      ensures Sound() && Abs() == HvfRunqueue.EnqueueTask(old(Abs()), id, flags, now)
      ensures Valid()
      ensures X.OnlyOn(old(Abs()), Abs(), id) && id in ents
      ensures X.EnqueueEffect(old(ents[id]), ents[id], flags, now, old(curr != Some(id) && id !in InOrder(tree)))
    {
      ghost var r := Abs();
      X.EnqueueMeans(r, id, flags, now);
      RevalueKeeps(r, id, flags, now);
      var e := Revalue(ents[id], flags, now);
      ents, this.now := ents[id := e], now;
      assert Abs() == Stored(r, id, e, now);
      AdmitEntity(id);
    }

    /** dequeue_task_hvf; `running` is task_is_running */
    method DequeueTask(id: Id, running: bool) returns (result: bool)
      requires Sound() && QueueOk(Abs()) && id in ents && id !in away
      modifies this
      ensures Sound() && Abs() == HvfRunqueue.DequeueTask(old(Abs()), id, running)
      ensures old(Valid()) ==> Valid()
      ensures result <==> nrRunning == old(nrRunning) - 1
    {
      ghost var r := Abs();
      if Inv(r) { DequeueKeeps(r, id, running); }
      if Some(id) != curr && ents[id].onRq {
        DequeueEntity(id);
        nrRunning := nrRunning - 1;
        return true;
      }
      if Some(id) == curr && !running {
        if ents[id].onRq {
          DequeueEntity(id);
        }
        nrRunning := nrRunning - 1;
        curr := None;
        return true;
      }
      return false;
    }

    /** set_next_task_hvf and set_next_hvf_entity */
    method SetNextTask(id: Id, first: bool, now: int)
      requires Sound() && QueueOk(Abs()) && id in ents && id !in away
      modifies this
      ensures Sound() && Abs() == if first then HvfRunqueue.SetNextTask(old(Abs()), id, now) else old(Abs())
      ensures X.OnlyOn(old(Abs()), Abs(), id) && id in ents
      ensures if first then X.DispatchEffect(old(ents[id]), ents[id], now) else ents[id] == old(ents[id])
    {
      if !first {
        return;
      }
      if ents[id].onRq {
        DequeueEntity(id);
      }
      ents := ents[id := E.Dispatched(ents[id], now)];
      this.now := now;
      curr := Some(id);
    }

    /** put_prev_hvf_entity */
    method PutPrevEntity(id: Id)
      requires Sound() && QueueOk(Abs()) && id in ents && id !in away
      modifies this
      ensures Sound() && Abs() == PutBack(old(Abs()), id)
    {
      if !ents[id].onRq {
        EnqueueEntity(id);
      }
      curr := None;
    }

    /** put_prev_task_hvf */
    method PutPrevTask(id: Id, running: bool, now: int)
      requires Valid() && id in ents && this.now <= now && curr == (if running then Some(id) else None)
      modifies this
      ensures Sound() && Abs() == HvfRunqueue.PutPrevTask(old(Abs()), id, running, now)
      ensures Valid()
      ensures X.OnlyOn(old(Abs()), Abs(), id) && id in ents && X.PutEffect(old(ents[id]), ents[id], running, now)
    {
      X.PutPrevMeans(Abs(), id, running, now);
      SettleKeeps(Abs(), id, running, now);
      var e := Settle(ents[id], running, now);
      ents, this.now := ents[id := e], now;
      if running {
        PutPrevEntity(id);
      }
    }

    /** task_tick_hvf; returns whether the tick asks to reschedule */
    method TaskTick(nsec: int, now: int) returns (resched: bool)
      requires Valid() && curr.Some? && this.now <= now
      modifies this
      ensures Sound() && Abs() == HvfRunqueue.TaskTick(old(Abs()), old(curr.value), nsec, now)
      ensures Valid()
      ensures X.OnlyOn(old(Abs()), Abs(), old(curr.value)) && X.TickEffect(old(ents[curr.value]), ents[old(curr.value)], nsec)
      ensures var value := old(ents[curr.value].value);
        resched <==> old(ents[curr.value].runtime) + nsec >= (9 + (if value < 1 then 1 else value)) * 1_000_000
    {
      Fit(Abs(), curr.value);
      SliceExact(ents[curr.value].value);
      X.TickMeans(Abs(), curr.value, nsec, now);
      TickKeeps(Abs(), nsec, now);
      var e := ents[curr.value];
      var slice := TimeSlice(e.value);
      e := e.(runtime := e.runtime + nsec);
      resched := e.runtime >= slice * K * K;
      if resched {
        e := e.(expired := true);
      }
      ents := ents[curr.value := e];
      this.now := now;
    }

    /** Other CPUs work on the shared entities. */
    method OthersRun(shared: map<Id, E.Ent>, ghost held: set<Id>, now: int)
      requires Valid() && Enabled(Abs(), Elsewhere(shared, held, now))
      modifies `ents, `now, `away
      ensures Sound() && Abs() == Apply(old(Abs()), Elsewhere(shared, held, now))
      ensures Valid()
    {
      ElsewhereKeeps(Abs(), shared, held, now);
      ents, this.now, away := shared, now, held;
    }

    /** set_scheduling_params by the current task at second `sec` */
    method SetSchedulingParams(d1: int, d2: int, ctime: int, sec: int) returns (ret: int)
      requires Valid() && curr.Some?
      modifies this
      ensures ret == if AdmittedAsWritten(d1, d2, ctime, sec) then 0 else -EINVAL
      ensures d1 <= 0 || d2 <= d1 ==> ret == -EINVAL
      ensures 0 < d1 < d2 && d2 * 1000 < TWO63 && 0 <= sec && -TWO63 <= ctime && sec * 1000 + ctime < TWO63 ==>
        (ret == 0 <==> sec * 1000 + ctime < d2 * 1000)
      ensures Sound() && Abs() == if ret == 0 then NewParams(old(Abs()), old(curr.value), d1, d2, ctime) else old(Abs())
      ensures X.OnlyOn(old(Abs()), Abs(), old(curr.value)) && curr == old(curr) && old(curr.value) in ents
      ensures ret == 0 ==> ents[old(curr.value)] == old(ents[curr.value]).(parsSet := true, d1 := d1, d2 := d2, ctime := ctime)
      ensures Valid()
    {
      AdmissionDecides(d1, d2, ctime, sec);
      Fit(Abs(), curr.value);
      var ordered := d1 > 0 && d2 > 0 && d1 < d2;
      var early := ToS64(ToS64(sec * K) + ctime) < ToS64(d2 * K);
      if ordered && early {
        NewParamsKeeps(Abs(), d1, d2, ctime);
        ents := ents[curr.value := ents[curr.value].(d1 := d1, d2 := d2, ctime := ctime, parsSet := true)];
        return 0;
      }
      return -EINVAL;
    }

    /** put_prev when the next task is of another class */
    method SwitchToOther(prev: Option<Id>, running: bool, now: int)
      requires Valid() && PutReady(Abs(), prev, running, now)
      modifies this
      ensures Sound() && Abs() == AfterPut(old(Abs()), prev, running, now)
      ensures Valid() && curr == None
    {
      AfterPutKeeps(Abs(), prev, running, now);
      if prev.Some? {
        PutPrevTask(prev.value, running, now);
      } else {
        this.now := now;
      }
    }

    /** pick_task, put_prev and set_next, as the scheduler calls them when no other class has a task */
    method Schedule(prev: Option<Id>, running: bool, now: int) returns (next: Option<Id>)
      requires Valid() && Enabled(Abs(), Step.Schedule(prev, running, now))
      modifies this
      ensures Sound() && Abs() == Reschedule(old(Abs()), prev, running, now)
      ensures Valid()
      ensures next == HvfRunqueue.PickTask(old(Abs())) && curr == next
    {
      ghost var r := Abs();
      ScheduleReady(r, prev, running, now);
      next := PickTask();
      if prev.Some? {
        PutPrevTask(prev.value, running, now);
      } else {
        this.now := now;
      }
      if next.Some? {
        SetNextTask(next.value, true, now);
      }
    }
  }
}
