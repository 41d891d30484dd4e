/**
 The HVF runqueue as a state machine: wakeups, dequeues, ticks and the scheduling step
 (pick, put_prev, set_next). The in-order sequence of the tree is the queue; `stamp` and
 `ticket` are history, recording when an entity was last queued. The entities are shared with the
 other runqueues, which may change those that this one does not hold.
 */
module HvfRunqueue {
  import opened Basics
  import opened HvfValue
  import opened HvfEntity
  import opened HvfTree

  datatype Rq = Rq(
    queue: seq<Id>,             // in order, so the last one has the highest value
    curr: Option<Id>,
    share: int,                 // what this class adds to rq->nr_running
    ents: map<Id, Ent>,
    now: int,
    stamp: map<Id, nat>,
    ticket: nat,
    away: set<Id>)              // the entities other runqueues hold at the moment

  function Val(ents: map<Id, Ent>): Id -> int {
    id => if id in ents then ents[id].value else 0
  }

  // ---- The operations.

  /** enqueue_hvf_entity: penalty, insertion, on_rq */
  function Queued(r: Rq, id: Id): Rq
    requires id in r.ents
  {
    var e := Entering(r.ents[id]).(onRq := true);
    var ents := r.ents[id := e];
    r.(queue := InsertedAt(r.queue, Place(r.queue, Val(ents), e.value), id), ents := ents,
       stamp := r.stamp[id := r.ticket], ticket := r.ticket + 1)
  }

  /** dequeue_hvf_entity */
  function Unqueued(r: Rq, id: Id): Rq
    requires id in r.ents
  {
    r.(queue := if id in r.queue then Without(r.queue, id) else r.queue, ents := r.ents[id := r.ents[id].(onRq := false)])
  }

  /** What the flags of enqueue_task_hvf ask for. */
  datatype Flags =
    | Initial(sec: int)         // ENQUEUE_INITIAL or ENQUEUE_CHANGED
    | Recompute                 // ENQUEUE_WAKEUP, ENQUEUE_MIGRATED or ENQUEUE_RESTORE
    | Plain

  function Revalued(e: Ent, flags: Flags, now: int): Ent
    requires CanRevalue(e, flags)
  {
    match flags
    case Initial(sec) => Restarted(e, now, sec)
    case Recompute => Computed(e)
    case Plain => e
  }

  predicate CanRevalue(e: Ent, flags: Flags) {
    match flags
    case Initial(_) => Admissible(e)
    case Recompute => e.d1 < e.d2
    case Plain => true
  }

  function Stored(r: Rq, id: Id, e: Ent, now: int): Rq {
    r.(ents := r.ents[id := e], now := now)
  }

  /** Queues a stored entity that is neither current nor queued. */
  function Admit(r: Rq, id: Id): Rq
    requires id in r.ents
  {
    if r.curr != Some(id) && !r.ents[id].onRq then Queued(r, id).(share := r.share + 1) else r
  }

  /** enqueue_task_hvf */
  function EnqueueTask(r: Rq, id: Id, flags: Flags, now: int): Rq
    requires id in r.ents && CanRevalue(r.ents[id], flags)
  {
    Admit(Stored(r, id, Revalued(r.ents[id], flags, now), now), id)
  }

  /** dequeue_task_hvf */
  function DequeueTask(r: Rq, id: Id, running: bool): Rq
    requires id in r.ents
  {
    if r.curr != Some(id) && r.ents[id].onRq then Unqueued(r, id).(share := r.share - 1)
    else if r.curr == Some(id) && !running then
      (if r.ents[id].onRq then Unqueued(r, id) else r).(share := r.share - 1, curr := None)
    else r
  }

  /** put_prev_hvf_entity */
  function PutBack(r: Rq, id: Id): Rq
    requires id in r.ents
  {
    (if r.ents[id].onRq then r else Queued(r, id)).(curr := None)
  }

  /** What put_prev_task_hvf does to the entity. */
  function Settled(e: Ent, running: bool, now: int): Ent {
    if running then Decayed(Accounted(e, now)) else Accounted(e, now)
  }

  /** put_prev_task_hvf */
  function PutPrevTask(r: Rq, id: Id, running: bool, now: int): Rq
    requires id in r.ents
  {
    var q := Stored(r, id, Settled(r.ents[id], running, now), now);
    if running then PutBack(q, id) else q
  }

  /** set_next_task_hvf with `first` set */
  function SetNextTask(r: Rq, id: Id, now: int): Rq
    requires id in r.ents
  {
    var q := if r.ents[id].onRq then Unqueued(r, id) else r;
    q.(ents := q.ents[id := Dispatched(q.ents[id], now)], curr := Some(id), now := now)
  }

  /** pick_task_hvf: the cached maximum; None stands for the idle task of an empty queue */
  function PickTask(r: Rq): Option<Id> {
    Last(r.queue)
  }

  /** task_tick_hvf, at time `now` */
  function TaskTick(r: Rq, id: Id, nsec: int, now: int): Rq
    requires id in r.ents
  {
    Stored(r, id, Ticked(r.ents[id], nsec), now)
  }

  function NewParams(r: Rq, id: Id, d1: int, d2: int, ctime: int): Rq
    requires id in r.ents
  {
    r.(ents := r.ents[id := WithParams(r.ents[id], d1, d2, ctime)])
  }

  datatype Step =
    | Enqueue(id: Id, flags: Flags, now: int)
    | Dequeue(id: Id, running: bool)
    | Tick(nsec: int, now: int)
    | SetParams(d1: int, d2: int, ctime: int)                 // accepted parameters of the current task
    | Schedule(prev: Option<Id>, running: bool, now: int)    // prev: the HVF task that was running, if any
    | PickOther(prev: Option<Id>, running: bool, now: int)   // the next task is of another class
    | Elsewhere(shared: map<Id, Ent>, held: set<Id>, now: int)  // other CPUs: the entities, and what they hold

  /**
   The premises on runs: values are not rewritten in the tree, a runnable prev is the current one,
   a blocked prev has been dequeued before, nobody is handled by two runqueues at once, and the
   clock does not go backwards.
   */
  predicate Enabled(r: Rq, s: Step) {
    match s
    case Enqueue(id, flags, now) =>
      id in r.ents && id !in r.away && CanRevalue(r.ents[id], flags) && r.now <= now && (id in r.queue ==> flags.Plain?)
    case Dequeue(id, running) => id in r.ents && id !in r.away
    case Tick(_, now) => r.curr.Some? && r.curr.value in r.ents && r.now <= now
    case SetParams(d1, d2, _) => r.curr.Some? && r.curr.value in r.ents && d1 < d2
    case Schedule(prev, running, now) => PutReady(r, prev, running, now)
    case PickOther(prev, running, now) => PutReady(r, prev, running, now)
    case Elsewhere(shared, held, now) =>
      && r.now <= now && shared.Keys == r.ents.Keys && held !! Members(r)
      && (forall id :: id in shared ==> LeftAlone(r, shared, held, now, id))
  }

  /** What other CPUs respect: the members of this runqueue, and that an entity nobody holds is in no tree. */
  predicate LeftAlone(r: Rq, shared: map<Id, Ent>, held: set<Id>, now: int, id: Id)
    requires id in shared
  {
    && EntOk(shared[id], now)
    && (id in Members(r) ==> id in r.ents && shared[id] == r.ents[id])
    && (id !in held && id !in r.queue ==> !shared[id].onRq)
  }

  /** The tasks the runqueue accounts for: queued or current. */
  function Members(r: Rq): set<Id> {
    Elems(r.queue) + (if r.curr.Some? then {r.curr.value} else {})
  }

  predicate PutReady(r: Rq, prev: Option<Id>, running: bool, now: int) {
    && r.now <= now
    && (prev.Some? ==> prev.value in r.ents && prev.value !in r.away)
    && r.curr == (if prev.Some? && running then prev else None)
  }

  /** The state between putting prev and setting next, and at the end when next is of another class. */
  function AfterPut(r: Rq, prev: Option<Id>, running: bool, now: int): Rq
    requires PutReady(r, prev, running, now)
  {
    if prev.Some? then PutPrevTask(r, prev.value, running, now) else r.(now := now)
  }

  function AfterSet(r: Rq, next: Option<Id>, now: int): Rq {
    if next.Some? && next.value in r.ents then SetNextTask(r, next.value, now) else r
  }

  /** pick_next_task and put_prev_set_next_task: the pick happens before prev is put back. */
  function Reschedule(r: Rq, prev: Option<Id>, running: bool, now: int): Rq
    requires PutReady(r, prev, running, now)
  {
    AfterSet(AfterPut(r, prev, running, now), PickTask(r), now)
  }

  function Apply(r: Rq, s: Step): Rq
    requires Enabled(r, s)
  {
    match s
    case Enqueue(id, flags, now) => EnqueueTask(r, id, flags, now)
    case Dequeue(id, running) => DequeueTask(r, id, running)
    case Tick(nsec, now) => TaskTick(r, r.curr.value, nsec, now)
    case SetParams(d1, d2, ctime) => NewParams(r, r.curr.value, d1, d2, ctime)
    case Schedule(prev, running, now) => Reschedule(r, prev, running, now)
    case PickOther(prev, running, now) => AfterPut(r, prev, running, now)
    case Elsewhere(shared, held, now) => r.(ents := shared, away := held, now := now)
  }

  // ---- The invariant.

  function ValueOf(ents: map<Id, Ent>, id: Id): int {
    if id in ents then ents[id].value else 0
  }

  function StampOf(stamp: map<Id, nat>, id: Id): nat {
    if id in stamp then stamp[id] else 0
  }

  /** `a` is dispatched after `b`: lower value, or the same value and queued later. */
  predicate Yields(ents: map<Id, Ent>, stamp: map<Id, nat>, a: Id, b: Id) {
    || ValueOf(ents, a) < ValueOf(ents, b)
    || (ValueOf(ents, a) == ValueOf(ents, b) && StampOf(stamp, a) > StampOf(stamp, b))
  }

  function Order(ents: map<Id, Ent>, stamp: map<Id, nat>): (Id, Id) -> bool {
    (a: Id, b: Id) => Yields(ents, stamp, a, b)
  }

  predicate EntOk(e: Ent, now: int) {
    0 <= e.value <= H && e.used >= 0 && e.latest <= now && (e.parsSet ==> e.d1 < e.d2)
  }

  /** An entity is well-formed, and unless another runqueue holds it, on_rq says whether it is in this tree. */
  predicate Fits(queue: seq<Id>, away: set<Id>, ents: map<Id, Ent>, now: int, stamp: map<Id, nat>, ticket: nat, id: Id) {
    && (id in ents ==> EntOk(ents[id], now) && (id !in away ==> (ents[id].onRq <==> id in queue)))
    && (id in queue ==> id in ents && id !in away && StampOf(stamp, id) < ticket)
  }

  ghost predicate AllFit(r: Rq) {
    forall id: Id :: Fits(r.queue, r.away, r.ents, r.now, r.stamp, r.ticket, id)
  }

  /** The tree is in order and agrees with the entities. */
  ghost predicate QueueOk(r: Rq) {
    Pairwise(r.queue, Order(r.ents, r.stamp)) && AllFit(r)
  }

  lemma Fit(r: Rq, id: Id)
    requires QueueOk(r)
    ensures id in r.ents ==> EntOk(r.ents[id], r.now) && (id !in r.away ==> (r.ents[id].onRq <==> id in r.queue))
    ensures id in r.queue ==> id in r.ents && id !in r.away && StampOf(r.stamp, id) < r.ticket
  {
    assert Fits(r.queue, r.away, r.ents, r.now, r.stamp, r.ticket, id);
  }

  ghost predicate Inv(r: Rq) {
    && QueueOk(r)
    && (r.curr.Some? ==> r.curr.value in r.ents && r.curr.value !in r.queue && r.curr.value !in r.away)
    && r.share == |r.queue| + (if r.curr.Some? then 1 else 0)
  }

  // ---- Each change keeps the queue in order.

  /** Nobody yields to itself, so nobody is queued twice. */
  lemma PairwiseNoDup(s: seq<Id>, ents: map<Id, Ent>, stamp: map<Id, nat>)
    requires Pairwise(s, Order(ents, stamp))
    ensures NoDup(s)
  {
    forall i: nat, j: nat | i < j < |s| ensures s[i] != s[j] {
      assert Below(s, Order(ents, stamp), i, j);
    }
  }

  lemma SortedByValue(s: seq<Id>, ents: map<Id, Ent>, stamp: map<Id, nat>)
    requires Pairwise(s, Order(ents, stamp))
    ensures Sorted(s, Val(ents))
  {
    forall i: nat, j: nat | i < j < |s| ensures Val(ents)(s[i]) <= Val(ents)(s[j]) {
      assert Below(s, Order(ents, stamp), i, j);
    }
  }

  /** Entities that are not queued do not matter to the order. */
  lemma OrderFrame(s: seq<Id>, ents: map<Id, Ent>, stamp: map<Id, nat>, ents': map<Id, Ent>, stamp': map<Id, nat>)
    requires Pairwise(s, Order(ents, stamp))
    requires forall x :: x in s ==> ValueOf(ents', x) == ValueOf(ents, x) && StampOf(stamp', x) == StampOf(stamp, x)
    ensures Pairwise(s, Order(ents', stamp'))
  {
    PairwiseWeaken(s, Order(ents, stamp), Order(ents', stamp'));
  }

  /** A newly queued entity, at its place, is in order: ahead of its equals, so behind them in turn. */
  lemma QueuedOrder(r: Rq, id: Id)
    requires QueueOk(r) && id in r.ents && id !in r.queue
    ensures Pairwise(Queued(r, id).queue, Order(Queued(r, id).ents, Queued(r, id).stamp))
  {
    var q := Queued(r, id);
    var s, order := r.queue, Order(q.ents, q.stamp);
    OrderFrame(s, r.ents, r.stamp, q.ents, q.stamp);
    SortedByValue(s, q.ents, q.stamp);
    var p := Place(s, Val(q.ents), q.ents[id].value);
    forall j | 0 <= j < |s| ensures if j < p then order(s[j], id) else order(id, s[j]) {
      Fit(r, s[j]);
      assert Val(q.ents)(s[j]) == ValueOf(q.ents, s[j]);
      assert StampOf(q.stamp, s[j]) == StampOf(r.stamp, s[j]) < r.ticket;
      if j > p { assert Val(q.ents)(s[p]) <= Val(q.ents)(s[j]); }
    }
    PairwiseInsert(s, p, id, order);
  }

  lemma QueuedKeeps(r: Rq, id: Id)
    requires QueueOk(r) && id in r.ents && id !in r.queue && id !in r.away
    ensures var q := Queued(r, id);
      && QueueOk(q) && |q.queue| == |r.queue| + 1
      && forall x :: x in q.queue <==> x in r.queue || x == id
  {
    var q := Queued(r, id);
    QueuedOrder(r, id);
    InsertedMembers(r.queue, Place(r.queue, Val(q.ents), q.ents[id].value), id);
    Fit(r, id);
    EnteringInRange(r.ents[id]);
    forall x: Id ensures Fits(q.queue, q.away, q.ents, q.now, q.stamp, q.ticket, x) { Fit(r, x); }
  }

  lemma UnqueuedKeeps(r: Rq, id: Id)
    requires QueueOk(r) && id in r.ents && id in r.queue
    ensures var q := Unqueued(r, id);
      && QueueOk(q) && |q.queue| == |r.queue| - 1
      && forall x :: x in q.queue <==> x in r.queue && x != id
  {
    var q := Unqueued(r, id);
    PairwiseNoDup(r.queue, r.ents, r.stamp);
    WithoutMembers(r.queue, id);
    PairwiseWithout(r.queue, id, Order(r.ents, r.stamp));
    OrderFrame(q.queue, r.ents, r.stamp, q.ents, q.stamp);
    forall x: Id ensures Fits(q.queue, q.away, q.ents, q.now, q.stamp, q.ticket, x) { Fit(r, x); }
  }

  /** Changing an entity without touching the value of a queued one. */
  lemma UpdateKeeps(r: Rq, id: Id, e: Ent, now: int)
    requires QueueOk(r) && id in r.ents && r.now <= now && EntOk(e, now) && e.onRq == r.ents[id].onRq
    requires id in r.queue ==> e.value == r.ents[id].value
    ensures QueueOk(Stored(r, id, e, now))
  {
    OrderFrame(r.queue, r.ents, r.stamp, r.ents[id := e], r.stamp);
    var ents := r.ents[id := e];
    forall x: Id ensures Fits(r.queue, r.away, ents, now, r.stamp, r.ticket, x) { Fit(r, x); }
  }

  // ---- Every step keeps the invariant.

  lemma EnqueueKeeps(r: Rq, id: Id, flags: Flags, now: int)
    requires Inv(r) && Enabled(r, Enqueue(id, flags, now))
    ensures Inv(EnqueueTask(r, id, flags, now)) && EnqueueTask(r, id, flags, now).curr == r.curr
    ensures forall x :: x in EnqueueTask(r, id, flags, now).queue <==> x in r.queue || (x == id && r.curr != Some(id))
  {
    var e := Revalued(r.ents[id], flags, now);
    Fit(r, id);
    RevaluedOk(r.ents[id], flags, now, r.now);
    UpdateKeeps(r, id, e, now);
    var q := Stored(r, id, e, now);
    if r.curr != Some(id) && !r.ents[id].onRq { QueuedKeeps(q, id); }
  }

  lemma RevaluedOk(e: Ent, flags: Flags, now: int, before: int)
    requires EntOk(e, before) && before <= now && CanRevalue(e, flags)
    ensures EntOk(Revalued(e, flags, now), now) && Revalued(e, flags, now).onRq == e.onRq
  {
    match flags
    case Plain =>
    case Recompute => InitValueClamped(e.first + e.ctime, e.d1, e.d2);
    case Initial(sec) =>
      var i := Initialized(WithDefaults(e, sec), now);
      InitValueClamped(i.first + i.ctime, i.d1, i.d2);
  }

  lemma DequeueKeeps(r: Rq, id: Id, running: bool)
    requires Inv(r) && id in r.ents && id !in r.away
    ensures Inv(DequeueTask(r, id, running))
    ensures forall x :: x in DequeueTask(r, id, running).queue <==> x in r.queue && x != id
    ensures DequeueTask(r, id, running).curr == if r.curr == Some(id) && !running then None else r.curr
  {
    Fit(r, id);
    if r.ents[id].onRq { UnqueuedKeeps(r, id); }
  }

  lemma PutPrevKeeps(r: Rq, id: Id, running: bool, now: int)
    requires Inv(r) && id in r.ents && r.now <= now && r.curr == (if running then Some(id) else None)
    ensures Inv(PutPrevTask(r, id, running, now))
    ensures var q := PutPrevTask(r, id, running, now);
      q.curr == None && forall x :: x in q.queue <==> x in r.queue || (running && x == id)
  {
    Fit(r, id);
    var e := Settled(r.ents[id], running, now);
    DecayedInRange(Accounted(r.ents[id], now));
    UpdateKeeps(r, id, e, now);
    if running { QueuedKeeps(Stored(r, id, e, now), id); }
  }

  lemma SetNextKeeps(r: Rq, id: Id, now: int)
    requires Inv(r) && r.curr == None && id in r.queue && id in r.ents && r.now <= now
    ensures Inv(SetNextTask(r, id, now))
    ensures var q := SetNextTask(r, id, now);
      q.curr == Some(id) && forall x :: x in q.queue <==> x in r.queue && x != id
  {
    Fit(r, id);
    UnqueuedKeeps(r, id);
    var q := Unqueued(r, id);
    UpdateKeeps(q, id, Dispatched(q.ents[id], now), now);
  }

  lemma AfterPutKeeps(r: Rq, prev: Option<Id>, running: bool, now: int)
    requires Inv(r) && PutReady(r, prev, running, now)
    ensures Inv(AfterPut(r, prev, running, now)) && AfterPut(r, prev, running, now).curr == None && AfterPut(r, prev, running, now).now == now
    ensures forall x :: x in AfterPut(r, prev, running, now).queue <==> x in r.queue || r.curr == Some(x)
  {
    if prev.Some? {
      PutPrevKeeps(r, prev.value, running, now);
    } else {
      forall x: Id ensures Fits(r.queue, r.away, r.ents, now, r.stamp, r.ticket, x) { Fit(r, x); }
    }
  }

  lemma AfterSetKeeps(q: Rq, next: Option<Id>, now: int)
    requires Inv(q) && q.curr == None && q.now <= now && (next.Some? ==> next.value in q.queue)
    ensures Inv(AfterSet(q, next, now)) && AfterSet(q, next, now).curr == next
    ensures forall x :: x in AfterSet(q, next, now).queue <==> x in q.queue && next != Some(x)
  {
    if next.Some? {
      Fit(q, next.value);
      SetNextKeeps(q, next.value, now);
    }
  }

  lemma ScheduleKeeps(r: Rq, prev: Option<Id>, running: bool, now: int)
    requires Inv(r) && PutReady(r, prev, running, now)
    ensures Inv(Reschedule(r, prev, running, now))
    ensures Reschedule(r, prev, running, now).curr == PickTask(r)
    ensures forall x :: x in Reschedule(r, prev, running, now).queue <==> (x in r.queue || r.curr == Some(x)) && PickTask(r) != Some(x)
  {
    AfterPutKeeps(r, prev, running, now);
    PickIsQueued(r);
    AfterSetKeeps(AfterPut(r, prev, running, now), PickTask(r), now);
  }

  lemma PickIsQueued(r: Rq)
    ensures PickTask(r).Some? ==> PickTask(r).value in r.queue
  {
  }

  lemma TickKeeps(r: Rq, nsec: int, now: int)
    requires Inv(r) && r.curr.Some? && r.now <= now
    ensures Inv(TaskTick(r, r.curr.value, nsec, now))
  {
    Fit(r, r.curr.value);
    UpdateKeeps(r, r.curr.value, Ticked(r.ents[r.curr.value], nsec), now);
  }

  /** What other CPUs do to the entities this runqueue does not hold. */
  lemma ElsewhereKeeps(r: Rq, shared: map<Id, Ent>, held: set<Id>, now: int)
    requires Inv(r) && Enabled(r, Elsewhere(shared, held, now))
    ensures Inv(Apply(r, Elsewhere(shared, held, now)))
  {
    forall x: Id ensures Fits(r.queue, held, shared, now, r.stamp, r.ticket, x) {
      Fit(r, x);
      if x in shared { assert LeftAlone(r, shared, held, now, x); }
    }
    OrderFrame(r.queue, r.ents, r.stamp, shared, r.stamp) by {
      forall x | x in r.queue ensures ValueOf(shared, x) == ValueOf(r.ents, x) {
        Fit(r, x);
        assert LeftAlone(r, shared, held, now, x);
      }
    }
  }

  lemma NewParamsKeeps(r: Rq, d1: int, d2: int, ctime: int)
    requires Inv(r) && r.curr.Some? && d1 < d2
    ensures Inv(NewParams(r, r.curr.value, d1, d2, ctime))
  {
    Fit(r, r.curr.value);
    UpdateKeeps(r, r.curr.value, WithParams(r.ents[r.curr.value], d1, d2, ctime), r.now);
  }

  lemma StepKeeps(r: Rq, s: Step)
    requires Inv(r) && Enabled(r, s)
    ensures Inv(Apply(r, s))
  {
    match s
    case Enqueue(id, flags, now) => EnqueueKeeps(r, id, flags, now);
    case Dequeue(id, running) => DequeueKeeps(r, id, running);
    case Tick(nsec, now) => TickKeeps(r, nsec, now);
    case SetParams(d1, d2, ctime) => NewParamsKeeps(r, d1, d2, ctime);
    case Schedule(prev, running, now) => ScheduleKeeps(r, prev, running, now);
    case PickOther(prev, running, now) => AfterPutKeeps(r, prev, running, now);
    case Elsewhere(shared, held, now) => ElsewhereKeeps(r, shared, held, now);
  }

  // ---- Runs.

  /** init_hvf_rq */
  predicate Init(r: Rq) {
    && r.queue == [] && r.curr == None && r.share == 0
    && (forall id :: id in r.ents ==> EntOk(r.ents[id], r.now) && (id !in r.away ==> !r.ents[id].onRq))
  }

  predicate Follows(r: Rq, s: Step, r': Rq) {
    Enabled(r, s) && r' == Apply(r, s)
  }

  predicate FollowsAt(rs: seq<Rq>, steps: seq<Step>, i: nat) {
    i < |steps| && |rs| == |steps| + 1 && Follows(rs[i], steps[i], rs[i + 1])
  }

  predicate IsRun(rs: seq<Rq>, steps: seq<Step>) {
    |rs| == |steps| + 1 && Init(rs[0]) && (forall i: nat :: i < |steps| ==> FollowsAt(rs, steps, i))
  }

  /** The invariant holds in every state of every run. */
  lemma {:induction false} RunKeeps(rs: seq<Rq>, steps: seq<Step>, i: nat)
    requires IsRun(rs, steps) && i < |rs|
    ensures Inv(rs[i])
  {
    if i > 0 {
      RunKeeps(rs, steps, i - 1);
      assert FollowsAt(rs, steps, i - 1);
      StepKeeps(rs[i - 1], steps[i - 1]);
    }
  }

  // ---- Conservation of tasks.

  lemma CountMembers(r: Rq)
    requires Inv(r)
    ensures r.share == |Members(r)|
  {
    PairwiseNoDup(r.queue, r.ents, r.stamp);
    SetSize(r.queue);
  }

  /** No task is both queued and current, and the share of nr_running counts exactly the members. */
  lemma ShareCountsMembers(rs: seq<Rq>, steps: seq<Step>, i: nat)
    requires IsRun(rs, steps) && i < |rs|
    ensures rs[i].share == |Members(rs[i])|
    ensures rs[i].curr.Some? ==> rs[i].curr.value !in rs[i].queue
  {
    RunKeeps(rs, steps, i);
    CountMembers(rs[i]);
  }

  /** A wakeup adds one task, a dequeue removes one, and every other step loses and gains none. */
  lemma TasksAreConserved(r: Rq, s: Step)
    requires Inv(r) && Enabled(r, s)
    ensures Members(Apply(r, s)) ==
      match s
      case Enqueue(id, _, _) => Members(r) + {id}
      case Dequeue(id, running) => if r.curr == Some(id) && running then Members(r) else Members(r) - {id}
      case _ => Members(r)
  {
    match s
    case Enqueue(id, flags, now) => EnqueueKeeps(r, id, flags, now);
    case Dequeue(id, running) => DequeueKeeps(r, id, running);
    case Tick(_, _) =>
    case SetParams(_, _, _) =>
    case Schedule(prev, running, now) =>
      ScheduleKeeps(r, prev, running, now);
      PickIsQueued(r);
    case PickOther(prev, running, now) => AfterPutKeeps(r, prev, running, now);
    case Elsewhere(_, _, _) =>
  }

  /** A scheduling step leaves the CPU to the idle task while somebody is queued iff the tree was empty and prev is still running. */
  lemma IdlesWhileRunnableIff(r: Rq, prev: Option<Id>, running: bool, now: int)
    requires Inv(r) && PutReady(r, prev, running, now)
    ensures var q := Reschedule(r, prev, running, now);
      q.curr == None && q.queue != [] <==> r.queue == [] && prev.Some? && running
  {
    ScheduleKeeps(r, prev, running, now);
    var q := Reschedule(r, prev, running, now);
    if r.queue == [] && prev.Some? && running { assert prev.value in q.queue; }
    if r.queue == [] && q.queue != [] { assert q.queue[0] in q.queue; }
  }

  // ---- The queue is a stable priority queue.

  /** The pick has the highest value, and among equal values was queued first. Idle iff nothing is queued. */
  lemma PickIsHighestAndOldest(rs: seq<Rq>, steps: seq<Step>, i: nat, x: Id)
    requires IsRun(rs, steps) && i < |rs|
    ensures PickTask(rs[i]).None? <==> rs[i].queue == []
    ensures x in rs[i].queue && PickTask(rs[i]) != Some(x) ==> Yields(rs[i].ents, rs[i].stamp, x, PickTask(rs[i]).value)
  {
    RunKeeps(rs, steps, i);
    var q := rs[i].queue;
    if x in q {
      var k :| 0 <= k < |q| && q[k] == x;
      assert Below(q, Order(rs[i].ents, rs[i].stamp), k, |q| - 1);
    }
  }
}
