/**
 What each operation of the class does to the entity it concerns, field by field and in plain
 numbers, and that it leaves every other entity alone.
 */
module HvfEffects {
  import opened Basics
  import opened HvfTree
  import opened HvfValue
  import opened HvfEntity
  import opened HvfRunqueue

  /** `v` is the value of a finish at `x` ms: 100 up to the first deadline, 0 from the second on, linear in between. */
  predicate Worth(x: int, d1: int, d2: int, v: int) {
    if x <= d1 * 1000 then v == 100
    else if x >= d2 * 1000 then v == 0
    else v * ((d2 - d1) * 1000) <= (d2 * 1000 - x) * 100 < (v + 1) * ((d2 - d1) * 1000)
  }

  lemma InitValueIsWorth(x: int, d1: int, d2: int)
    requires d1 < d2
    ensures Worth(x, d1, d2, InitValue(x, d1, d2))
  {
    InitValueClamped(x, d1, d2);
    if d1 * K <= x <= d2 * K { InitValueInterpolates(x, d1, d2); }
  }

  /** Queueing turns the value `v` into `r`: a percentage is taken away iff more time was used than announced. */
  predicate EntersWith(used: int, ctime: int, v: int, r: int) {
    if used > ctime then LeftOver(v, (used - ctime) * (used - ctime), r) else r == v
  }

  lemma EnteringMeans(e: Ent)
    requires 0 <= e.value <= H
    ensures EntersWith(e.used, e.ctime, e.value, Entering(e).value) && Entering(e) == e.(value := Entering(e).value)
  {
    PenalizedExact(e.used, e.ctime, e.value);
  }

  // ---- The effects.

  /** enqueue_task_hvf; `queues` says whether it is put into the tree */
  predicate EnqueueEffect(e: Ent, e': Ent, flags: Flags, now: int, queues: bool) {
    && (var v := if flags.Plain? then e.value else e'.initValue;
        if queues then EntersWith(e'.used, e'.ctime, v, e'.value) else e'.value == v)
    && (!flags.Plain? ==> Worth(e'.first + e'.ctime, e'.d1, e'.d2, e'.initValue))
    && e'.onRq == (e.onRq || queues)
    && match flags
       case Initial(sec) =>
         && e'.first == now && e'.latest == now && e'.used == 0 && e'.answers == 0 && !e'.expired && e'.parsSet
         && e'.runtime == e.runtime && e'.firstAnswer == e.firstAnswer
         && (if e.parsSet then e'.d1 == e.d1 && e'.d2 == e.d2 && e'.ctime == e.ctime
             else e'.d1 == sec + 4 && e'.d2 == sec + 6 && e'.ctime == 1000)
       case Recompute => e' == e.(value := e'.value, initValue := e'.initValue, onRq := e'.onRq)
       case Plain => e' == e.(value := e'.value, onRq := e'.onRq)
  }

  /** The decay at the end of a slice, before the task is queued. */
  predicate DecaysTo(e: Ent, used: int, v: int) {
    if e.expired then LeftOver(e.value, used, v) else v == e.value
  }

  /** put_prev_task_hvf: the time since the dispatch is added; a running task decays and is queued */
  ghost predicate PutEffect(e: Ent, e': Ent, running: bool, now: int) {
    var used := e.used + (now - e.latest);
    if running then
      && e' == e.(used := used, value := e'.value, expired := false, onRq := true)
      && (exists v :: DecaysTo(e, used, v) && EntersWith(used, e.ctime, v, e'.value))
    else e' == e.(used := used)
  }

  /** set_next_task_hvf: the first dispatch since the start is the first answer */
  predicate DispatchEffect(e: Ent, e': Ent, now: int) {
    e' == e.(latest := now, runtime := 0, answers := e.answers + 1, onRq := false,
             firstAnswer := if e.answers == 0 then now else e.firstAnswer)
  }

  /** task_tick_hvf */
  predicate TickEffect(e: Ent, e': Ent, nsec: int) {
    e' == e.(runtime := e.runtime + nsec, expired := e.expired || SliceUsedUp(e.runtime + nsec, e.value))
  }

  // ---- Each operation has its effect, on its entity and on no other.

  ghost predicate OnlyOn(r: Rq, q: Rq, id: Id) {
    q.ents.Keys == r.ents.Keys && forall x :: x in r.ents && x != id ==> q.ents[x] == r.ents[x]
  }

  lemma RevaluedMeans(e: Ent, flags: Flags, now: int)
    requires CanRevalue(e, flags) && 0 <= e.value <= H
    ensures var e' := Revalued(e, flags, now); 0 <= e'.value <= H && EnqueueEffect(e, e', flags, now, false)
  {
    match flags
    case Plain =>
    case Recompute =>
      InitValueIsWorth(e.first + e.ctime, e.d1, e.d2);
      InitValueClamped(e.first + e.ctime, e.d1, e.d2);
    case Initial(sec) =>
      var i := Initialized(WithDefaults(e, sec), now);
      InitValueIsWorth(i.first + i.ctime, i.d1, i.d2);
      InitValueClamped(i.first + i.ctime, i.d1, i.d2);
  }

  lemma QueuedMeans(e: Ent, e': Ent, flags: Flags, now: int)
    requires EnqueueEffect(e, e', flags, now, false) && 0 <= e'.value <= H
    ensures EnqueueEffect(e, Entering(e').(onRq := true), flags, now, true)
  {
    EnteringMeans(e');
  }

  /** A wakeup stores the worth of the predicted finish, less the penalty iff it queues an entity that overran. */
  lemma EnqueueMeans(r: Rq, id: Id, flags: Flags, now: int)
    requires Inv(r) && HvfRunqueue.Enabled(r, Enqueue(id, flags, now))
    ensures var q := EnqueueTask(r, id, flags, now);
      && OnlyOn(r, q, id) && id in q.ents
      && EnqueueEffect(r.ents[id], q.ents[id], flags, now, r.curr != Some(id) && id !in r.queue)
  {
    Fit(r, id);
    var e := Revalued(r.ents[id], flags, now);
    RevaluedMeans(r.ents[id], flags, now);
    QueuedMeans(r.ents[id], e, flags, now);
  }

  lemma SettledMeans(e: Ent, now: int)
    requires 0 <= e.value <= H && e.used + (now - e.latest) >= 0
    ensures PutEffect(e, Entering(Settled(e, true, now)).(onRq := true), true, now)
  {
    var used := e.used + (now - e.latest);
    var d := Settled(e, true, now);
    if e.expired { ReducedExact(used, e.value); }
    DecayedInRange(Accounted(e, now));
    EnteringMeans(d);
    assert DecaysTo(e, used, d.value) && EntersWith(used, e.ctime, d.value, Entering(d).value);
  }

  /** Putting the previous task adds the time since its dispatch; a running one then decays iff flagged, and is penalized iff it overran. */
  lemma PutPrevMeans(r: Rq, id: Id, running: bool, now: int)
    requires Inv(r) && id in r.ents && r.now <= now && r.curr == (if running then Some(id) else None)
    ensures var q := PutPrevTask(r, id, running, now);
      OnlyOn(r, q, id) && id in q.ents && PutEffect(r.ents[id], q.ents[id], running, now)
  {
    Fit(r, id);
    if running { SettledMeans(r.ents[id], now); }
  }

  lemma SetNextMeans(r: Rq, id: Id, now: int)
    requires id in r.ents
    ensures var q := SetNextTask(r, id, now); OnlyOn(r, q, id) && id in q.ents && DispatchEffect(r.ents[id], q.ents[id], now)
  {
  }

  /** A tick flags the task iff its ticks since the dispatch reach the slice of its value, or it was flagged before. */
  lemma TickMeans(r: Rq, id: Id, nsec: int, now: int)
    requires Inv(r) && r.curr == Some(id)
    ensures var q := TaskTick(r, id, nsec, now); OnlyOn(r, q, id) && id in q.ents && TickEffect(r.ents[id], q.ents[id], nsec)
  {
    Fit(r, id);
    SliceExact(r.ents[id].value);
  }

  /** Accepted parameters replace those of the current task, and nothing else. */
  lemma NewParamsMeans(r: Rq, id: Id, d1: int, d2: int, ctime: int)
    requires id in r.ents
    ensures var q := NewParams(r, id, d1, d2, ctime);
      && OnlyOn(r, q, id) && q == r.(ents := q.ents)
      && id in q.ents && q.ents[id] == r.ents[id].(parsSet := true, d1 := d1, d2 := d2, ctime := ctime)
  {
  }

  /** A scheduling step puts the previous task, dispatches the pick, and touches nobody else. */
  lemma ScheduleMeans(r: Rq, prev: Option<Id>, running: bool, now: int, x: Id)
    requires Inv(r) && PutReady(r, prev, running, now) && (prev.Some? ==> prev.value !in r.queue) && x in r.ents
    ensures var q := Reschedule(r, prev, running, now);
      && x in q.ents
      && (prev == Some(x) ==> PutEffect(r.ents[x], q.ents[x], running, now))
      && (PickTask(r) == Some(x) ==> DispatchEffect(r.ents[x], q.ents[x], now))
      && (prev != Some(x) && PickTask(r) != Some(x) ==> q.ents[x] == r.ents[x])
  {
    PickIsQueued(r);
    var p := AfterPut(r, prev, running, now);
    if prev.Some? { PutPrevMeans(r, prev.value, running, now); }
    if PickTask(r).Some? {
      Fit(r, PickTask(r).value);
      SetNextMeans(p, PickTask(r).value, now);
    }
  }
}
