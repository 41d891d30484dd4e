/**
 First come, first served, as an exact account: while an entity is queued, the number of entities
 that will be picked before it grows by one with every higher arrival and shrinks by one with every
 scheduling step and every removal from ahead, and it is dispatched exactly when the account is zero.
 */
module HvfFairness {
  import opened Basics
  import opened HvfValue
  import E = HvfEntity
  import opened HvfTree
  import opened HvfRunqueue

  /** How many queued entities will be picked before `x`. */
  function Ahead(s: seq<Id>, x: Id): nat
    requires x in s
  {
    |s| - 1 - IndexOf(s, x)
  }

  /** Whom the step puts into the tree. */
  function Newcomer(r: Rq, s: Step): Option<Id> {
    match s
    case Enqueue(id, _, _) => if id !in r.queue && r.curr != Some(id) then Some(id) else None
    case Schedule(prev, running, _) => if running then prev else None
    case PickOther(prev, running, _) => if running then prev else None
    case _ => None
  }

  /** The value with which `id` enters the tree. */
  function EntryValue(r: Rq, s: Step, id: Id): int
    requires Enabled(r, s)
  {
    match s
    case Enqueue(x, flags, now) => ValueOf(EnqueueTask(r, x, flags, now).ents, id)
    case Schedule(prev, running, now) => ValueOf(AfterPut(r, prev, running, now).ents, id)
    case PickOther(prev, running, now) => ValueOf(AfterPut(r, prev, running, now).ents, id)
    case _ => ValueOf(r.ents, id)
  }

  /** 1 if the step puts somebody of a higher value into the tree. */
  function Overtakes(r: Rq, s: Step, x: Id): nat
    requires Enabled(r, s)
  {
    if Newcomer(r, s).Some? && EntryValue(r, s, Newcomer(r, s).value) > ValueOf(r.ents, x) then 1 else 0
  }

  /** 1 if the step dequeues somebody who is ahead of `x`. */
  function Leaves(r: Rq, s: Step, x: Id): nat {
    if s.Dequeue? && s.id in r.queue && x in r.queue && IndexOf(r.queue, x) < IndexOf(r.queue, s.id) then 1 else 0
  }

  function Picks(s: Step): nat {
    if s.Schedule? then 1 else 0
  }

  // ---- One insertion, one removal.

  lemma InsertBelow(s: seq<Id>, p: nat, id: Id, x: Id)
    requires NoDup(s) && x in s && id !in s && p <= |s|
    ensures x in InsertedAt(s, p, id)
    ensures Ahead(InsertedAt(s, p, id), x) == Ahead(s, x) + if p <= IndexOf(s, x) then 0 else 1
  {
    var t, i := InsertedAt(s, p, id), IndexOf(s, x);
    var i' := if p <= i then i + 1 else i;
    assert t[i'] == x;
    forall a | 0 <= a < |t| && a != i' ensures t[a] != x {
      assert t[a] == if a < p then s[a] else if a == p then id else s[a - 1];
    }
  }

  lemma RemoveOther(s: seq<Id>, y: Id, x: Id)
    requires NoDup(s) && x in s && y in s && x != y
    ensures x in Without(s, y)
    ensures Ahead(Without(s, y), x) == Ahead(s, x) - if IndexOf(s, x) < IndexOf(s, y) then 1 else 0
  {
    var t, i, k := Without(s, y), IndexOf(s, x), IndexOf(s, y);
    var i' := if i < k then i else i - 1;
    assert t[i'] == x;
    forall a | 0 <= a < |t| && a != i' ensures t[a] != x {
      assert t[a] == if a < k then s[a] else s[a + 1];
    }
  }

  lemma YieldsByIndex(r: Rq, x: Id, y: Id)
    requires Pairwise(r.queue, Order(r.ents, r.stamp)) && x in r.queue && y in r.queue && IndexOf(r.queue, x) < IndexOf(r.queue, y)
    ensures Yields(r.ents, r.stamp, x, y)
  {
    assert Below(r.queue, Order(r.ents, r.stamp), IndexOf(r.queue, x), IndexOf(r.queue, y));
  }

  /** In an ordered queue, who yields comes first in the sequence. */
  lemma IndexByOrder(r: Rq, x: Id, y: Id)
    requires Pairwise(r.queue, Order(r.ents, r.stamp)) && x in r.queue && y in r.queue && Yields(r.ents, r.stamp, x, y)
    ensures IndexOf(r.queue, x) < IndexOf(r.queue, y)
  {
    if IndexOf(r.queue, y) < IndexOf(r.queue, x) { YieldsByIndex(r, y, x); }
  }

  /** Queueing an entity puts it ahead of `x` iff its value is higher. */
  lemma QueuedAhead(r: Rq, id: Id, x: Id)
    requires QueueOk(r) && id in r.ents && id !in r.queue && x in r.queue
    ensures var q := Queued(r, id);
      && x in q.queue && ValueOf(q.ents, x) == ValueOf(r.ents, x)
      && Ahead(q.queue, x) == Ahead(r.queue, x) + if ValueOf(q.ents, id) > ValueOf(r.ents, x) then 1 else 0
  {
    var q, s := Queued(r, id), r.queue;
    var p, i := Place(s, Val(q.ents), q.ents[id].value), IndexOf(s, x);
    PairwiseNoDup(s, r.ents, r.stamp);
    OrderFrame(s, r.ents, r.stamp, q.ents, q.stamp);
    SortedByValue(s, q.ents, q.stamp);
    assert Val(q.ents)(s[i]) == ValueOf(r.ents, x);
    assert p < i ==> Val(q.ents)(s[p]) <= Val(q.ents)(s[i]);
    InsertBelow(s, p, id, x);
  }

  // ---- One step.

  lemma WaitEnqueue(r: Rq, id: Id, flags: Flags, now: int, x: Id)
    requires Inv(r) && Enabled(r, Enqueue(id, flags, now)) && x in r.queue
    ensures var q := EnqueueTask(r, id, flags, now);
      && x in q.queue
      && Ahead(q.queue, x) == Ahead(r.queue, x) + Overtakes(r, Enqueue(id, flags, now), x)
  {
    Fit(r, id);
    var e := Revalued(r.ents[id], flags, now);
    RevaluedOk(r.ents[id], flags, now, r.now);
    UpdateKeeps(r, id, e, now);
    if r.curr != Some(id) && !r.ents[id].onRq { QueuedAhead(Stored(r, id, e, now), id, x); }
  }

  lemma WaitDequeue(r: Rq, id: Id, running: bool, x: Id)
    requires Inv(r) && id in r.ents && id !in r.away && x in r.queue && id != x
    ensures var q := DequeueTask(r, id, running);
      && x in q.queue
      && Ahead(q.queue, x) == Ahead(r.queue, x) - Leaves(r, Dequeue(id, running), x)
  {
    Fit(r, id);
    PairwiseNoDup(r.queue, r.ents, r.stamp);
    if id in r.queue { RemoveOther(r.queue, id, x); }
  }

  /** Putting prev back overtakes `x` iff prev's value is higher. */
  lemma WaitPut(r: Rq, prev: Option<Id>, running: bool, now: int, x: Id)
    requires Inv(r) && PutReady(r, prev, running, now) && x in r.queue
    ensures var q := AfterPut(r, prev, running, now);
      && x in q.queue
      && Ahead(q.queue, x) == Ahead(r.queue, x) + Overtakes(r, PickOther(prev, running, now), x)
  {
    if prev.Some? && running {
      Fit(r, prev.value);
      E.DecayedInRange(E.Accounted(r.ents[prev.value], now));
      WaitStored(r, prev.value, Settled(r.ents[prev.value], running, now), now, x);
    }
  }

  lemma WaitStored(r: Rq, id: Id, e: E.Ent, now: int, x: Id)
    requires Inv(r) && id in r.ents && r.now <= now && EntOk(e, now) && !e.onRq && !r.ents[id].onRq && x in r.queue
    ensures var q := PutBack(Stored(r, id, e, now), id);
      && x in q.queue
      && Ahead(q.queue, x) == Ahead(r.queue, x) + if ValueOf(q.ents, id) > ValueOf(r.ents, x) then 1 else 0
  {
    Fit(r, id);
    UpdateKeeps(r, id, e, now);
    QueuedAhead(Stored(r, id, e, now), id, x);
  }

  /** It changes nothing about those already queued. */
  lemma PutFrame(r: Rq, prev: Option<Id>, running: bool, now: int, y: Id)
    requires Inv(r) && PutReady(r, prev, running, now) && y in r.queue
    ensures var q := AfterPut(r, prev, running, now);
      ValueOf(q.ents, y) == ValueOf(r.ents, y) && StampOf(q.stamp, y) == StampOf(r.stamp, y)
  {
    if prev.Some? { Fit(r, prev.value); }
  }

  /** Dispatching somebody ahead of `x`. */
  lemma WaitSet(q: Rq, next: Id, now: int, x: Id)
    requires Inv(q) && next in q.queue && x in q.queue && IndexOf(q.queue, x) < IndexOf(q.queue, next)
    ensures var f := AfterSet(q, Some(next), now);
      x in f.queue && Ahead(f.queue, x) == Ahead(q.queue, x) - 1
  {
    Fit(q, next);
    PairwiseNoDup(q.queue, q.ents, q.stamp);
    RemoveOther(q.queue, next, x);
  }

  /** After prev has been put, the one to be picked is still ahead of `x`. */
  lemma NextStaysAhead(r: Rq, prev: Option<Id>, running: bool, now: int, x: Id)
    requires Inv(r) && PutReady(r, prev, running, now) && x in r.queue && Ahead(r.queue, x) > 0
    ensures var q, next := AfterPut(r, prev, running, now), PickTask(r).value;
      next != x && next in q.queue && x in q.queue && IndexOf(q.queue, x) < IndexOf(q.queue, next)
  {
    var q, next := AfterPut(r, prev, running, now), PickTask(r).value;
    AfterPutKeeps(r, prev, running, now);
    PairwiseNoDup(r.queue, r.ents, r.stamp);
    IndexIsUnique(r.queue, |r.queue| - 1);
    YieldsByIndex(r, x, next);
    PutFrame(r, prev, running, now, x);
    PutFrame(r, prev, running, now, next);
    IndexByOrder(q, x, next);
  }

  /** A scheduling step dispatches `x` iff nobody is ahead. */
  lemma PickedIff(r: Rq, prev: Option<Id>, running: bool, now: int, x: Id)
    requires Inv(r) && PutReady(r, prev, running, now) && x in r.queue
    ensures var q := Reschedule(r, prev, running, now);
      (q.curr == Some(x) <==> Ahead(r.queue, x) == 0) && (x in q.queue <==> Ahead(r.queue, x) > 0)
  {
    ScheduleKeeps(r, prev, running, now);
    PairwiseNoDup(r.queue, r.ents, r.stamp);
    IndexIsUnique(r.queue, |r.queue| - 1);
  }

  /** A scheduling step with somebody ahead: the picked one is gone. */
  lemma WaitSchedule(r: Rq, prev: Option<Id>, running: bool, now: int, x: Id)
    requires Inv(r) && PutReady(r, prev, running, now) && x in r.queue && Ahead(r.queue, x) > 0
    ensures var q := Reschedule(r, prev, running, now);
      && x in q.queue
      && Ahead(q.queue, x) == Ahead(r.queue, x) + Overtakes(r, PickOther(prev, running, now), x) - 1
  {
    var q := AfterPut(r, prev, running, now);
    NextStaysAhead(r, prev, running, now, x);
    AfterPutKeeps(r, prev, running, now);
    WaitPut(r, prev, running, now, x);
    WaitSet(q, PickTask(r).value, now, x);
  }

  lemma WaitPicked(r: Rq, prev: Option<Id>, running: bool, now: int, x: Id)
    requires Inv(r) && PutReady(r, prev, running, now) && x in r.queue && Ahead(r.queue, x) > 0
    ensures var q := Apply(r, Schedule(prev, running, now));
      && x in q.queue
      && Ahead(q.queue, x) == Ahead(r.queue, x) + Overtakes(r, Schedule(prev, running, now), x) - 1
  {
    WaitSchedule(r, prev, running, now, x);
    assert Overtakes(r, Schedule(prev, running, now), x) == Overtakes(r, PickOther(prev, running, now), x);
  }

  /** The step takes `x` out of the tree: it is dequeued, or dispatched with nobody ahead. */
  predicate Ends(r: Rq, s: Step, x: Id)
    requires x in r.queue
  {
    (s.Dequeue? && s.id == x) || (s.Schedule? && Ahead(r.queue, x) == 0)
  }

  /** One entry of the account. */
  lemma WaitStep(r: Rq, s: Step, x: Id)
    requires Inv(r) && Enabled(r, s) && x in r.queue
    ensures x in Apply(r, s).queue <==> !Ends(r, s, x)
    ensures s.Schedule? ==> (Apply(r, s).curr == Some(x) <==> Ends(r, s, x))
    ensures !Ends(r, s, x) ==>
      Ahead(Apply(r, s).queue, x) == Ahead(r.queue, x) + Overtakes(r, s, x) - Picks(s) - Leaves(r, s, x)
  {
    match s
    case Enqueue(id, flags, now) => WaitEnqueue(r, id, flags, now, x);
    case Dequeue(id, running) =>
      DequeueKeeps(r, id, running);
      if id != x { WaitDequeue(r, id, running, x); }
    case Tick(_, _) =>
    case SetParams(_, _, _) =>
    case Elsewhere(_, _, _) =>
    case Schedule(prev, running, now) =>
      PickedIff(r, prev, running, now, x);
      if Ahead(r.queue, x) > 0 { WaitPicked(r, prev, running, now, x); }
    case PickOther(prev, running, now) => WaitPut(r, prev, running, now, x);
  }

  // ---- Runs.

  /** Step `m` of the run, taken from the state before it. */
  predicate StepsAt(rs: seq<Rq>, steps: seq<Step>, m: nat) {
    m < |steps| && |rs| == |steps| + 1 && Enabled(rs[m], steps[m])
  }

  /** Higher arrivals between states `i` and `n`. */
  function Overtaking(rs: seq<Rq>, steps: seq<Step>, i: nat, n: nat, x: Id): nat {
    if n <= i then 0
    else Overtaking(rs, steps, i, n - 1, x) + if StepsAt(rs, steps, n - 1) then Overtakes(rs[n - 1], steps[n - 1], x) else 0
  }

  /** Scheduling steps between states `i` and `n`. */
  function Schedules(steps: seq<Step>, i: nat, n: nat): nat {
    if n <= i then 0 else Schedules(steps, i, n - 1) + if n <= |steps| then Picks(steps[n - 1]) else 0
  }

  /** Removals from ahead of `x` between states `i` and `n`. */
  function Leaving(rs: seq<Rq>, steps: seq<Step>, i: nat, n: nat, x: Id): nat {
    if n <= i then 0
    else Leaving(rs, steps, i, n - 1, x) + if StepsAt(rs, steps, n - 1) then Leaves(rs[n - 1], steps[n - 1], x) else 0
  }

  lemma InRun(rs: seq<Rq>, steps: seq<Step>, m: nat)
    requires IsRun(rs, steps) && m < |steps|
    ensures StepsAt(rs, steps, m) && Inv(rs[m]) && rs[m + 1] == Apply(rs[m], steps[m])
  {
    RunKeeps(rs, steps, m);
    assert FollowsAt(rs, steps, m);
  }

  /** Over every stretch of every run during which `x` is queued, the account is exact. */
  lemma {:induction false} AccountIsExact(rs: seq<Rq>, steps: seq<Step>, i: nat, n: nat, x: Id)
    requires IsRun(rs, steps) && i <= n < |rs| && forall m :: i <= m <= n ==> x in rs[m].queue
    ensures Ahead(rs[n].queue, x) ==
      Ahead(rs[i].queue, x) + Overtaking(rs, steps, i, n, x) - Schedules(steps, i, n) - Leaving(rs, steps, i, n, x)
  {
    if i < n {
      AccountIsExact(rs, steps, i, n - 1, x);
      InRun(rs, steps, n - 1);
      WaitStep(rs[n - 1], steps[n - 1], x);
    }
  }

  /** A scheduling step dispatches the entity iff its account has come to zero. */
  lemma DispatchedIff(rs: seq<Rq>, steps: seq<Step>, i: nat, n: nat, x: Id)
    requires IsRun(rs, steps) && i <= n < |steps| && steps[n].Schedule?
    requires forall m :: i <= m <= n ==> x in rs[m].queue
    ensures rs[n + 1].curr == Some(x) <==>
      Ahead(rs[i].queue, x) + Overtaking(rs, steps, i, n, x) == Schedules(steps, i, n) + Leaving(rs, steps, i, n, x)
  {
    AccountIsExact(rs, steps, i, n, x);
    InRun(rs, steps, n);
    WaitStep(rs[n], steps[n], x);
  }

  /** Nobody dequeues `x` and nobody higher arrives between states `i` and `n`. */
  predicate Undisturbed(rs: seq<Rq>, steps: seq<Step>, i: nat, n: nat, x: Id) {
    && Overtaking(rs, steps, i, n, x) == 0
    && forall m :: i <= m < n && m < |steps| ==> !(steps[m].Dequeue? && steps[m].id == x)
  }

  lemma {:induction false} StillWaiting(rs: seq<Rq>, steps: seq<Step>, i: nat, n: nat, x: Id)
    requires IsRun(rs, steps) && i <= n < |rs| && x in rs[i].queue && Undisturbed(rs, steps, i, n, x)
    requires Schedules(steps, i, n) + Leaving(rs, steps, i, n, x) <= Ahead(rs[i].queue, x)
    ensures forall m :: i <= m <= n ==> x in rs[m].queue
    ensures Ahead(rs[n].queue, x) == Ahead(rs[i].queue, x) - Schedules(steps, i, n) - Leaving(rs, steps, i, n, x)
  {
    if i < n {
      StillWaiting(rs, steps, i, n - 1, x);
      InRun(rs, steps, n - 1);
      WaitStep(rs[n - 1], steps[n - 1], x);
    }
  }

  /**
   From any state of any run, while nobody higher arrives and the entity itself is not dequeued:
   with `k` ahead, it is dispatched by exactly the scheduling step that follows `k` earlier
   scheduling steps and removals from ahead.
   */
  lemma DispatchedInTurn(rs: seq<Rq>, steps: seq<Step>, i: nat, n: nat, x: Id)
    requires IsRun(rs, steps) && i <= n < |steps| && x in rs[i].queue && Undisturbed(rs, steps, i, n, x)
    requires steps[n].Schedule? && Schedules(steps, i, n) + Leaving(rs, steps, i, n, x) == Ahead(rs[i].queue, x)
    ensures rs[n + 1].curr == Some(x)
    ensures forall m :: i <= m <= n ==> x in rs[m].queue
  {
    StillWaiting(rs, steps, i, n, x);
    InRun(rs, steps, n);
    WaitStep(rs[n], steps[n], x);
  }
}
