/**
 The runqueue together with the task on its CPU: every step of the runqueue is, for every entity it
 may touch, one event of a life of HvfEntity; and the CPU is charged to one entity at a time.
 */
module HvfLives {
  import opened Basics
  import opened HvfTree
  import opened HvfValue
  import E = HvfEntity
  import opened HvfRunqueue

  /** A runqueue with the HVF task that is on the CPU, also while it is blocked but not yet put. */
  datatype Track = Track(r: Rq, onCpu: Option<Id>)

  /** The step switches away from prev. */
  predicate Switches(s: Step) {
    s.Schedule? || s.PickOther?
  }

  /** Prev is the task on the CPU, and nobody wakes a task, or handles it on another CPU, before it has been put. */
  predicate Orderly(k: Track, s: Step) {
    match s
    case Enqueue(id, _, _) => k.onCpu == Some(id) ==> k.r.curr == Some(id)
    case Schedule(prev, _, _) => prev == k.onCpu
    case PickOther(prev, _, _) => prev == k.onCpu
    case Elsewhere(shared, held, _) =>
      k.onCpu.Some? ==> var id := k.onCpu.value; id !in held && id in shared && id in k.r.ents && shared[id] == k.r.ents[id]
    case _ => true
  }

  function Next(k: Track, s: Step): Track
    requires Enabled(k.r, s)
  {
    Track(Apply(k.r, s), if s.Schedule? then PickTask(k.r) else if s.PickOther? then None else k.onCpu)
  }

  ghost predicate TrackInv(k: Track) {
    && Inv(k.r)
    && (k.r.curr.Some? ==> k.onCpu == k.r.curr)
    && (k.onCpu.Some? ==> k.onCpu.value in k.r.ents && k.onCpu.value !in k.r.queue && k.onCpu.value !in k.r.away)
  }

  lemma TrackKeeps(k: Track, s: Step)
    requires TrackInv(k) && Enabled(k.r, s) && Orderly(k, s)
    ensures TrackInv(Next(k, s))
  {
    StepKeeps(k.r, s);
    match s
    case Enqueue(id, flags, now) => EnqueueKeeps(k.r, id, flags, now);
    case Dequeue(id, running) => DequeueKeeps(k.r, id, running);
    case Tick(_, _) =>
    case SetParams(_, _, _) =>
    case Schedule(prev, running, now) =>
      ScheduleKeeps(k.r, prev, running, now);
      PickIsQueued(k.r);
      StepFrames(k.r, s);
      if PickTask(k.r).Some? { Fit(k.r, PickTask(k.r).value); }
    case PickOther(prev, running, now) => AfterPutKeeps(k.r, prev, running, now);
    case Elsewhere(_, _, _) =>
  }

  /** The same entities, those held elsewhere untouched, and no earlier a clock. */
  ghost predicate Frames(r: Rq, q: Rq) {
    && q.ents.Keys == r.ents.Keys && q.away == r.away && r.now <= q.now
    && (forall x :: x in r.away && x in r.ents ==> q.ents[x] == r.ents[x])
  }

  lemma AfterPutFrames(r: Rq, prev: Option<Id>, running: bool, now: int)
    requires PutReady(r, prev, running, now)
    ensures Frames(r, AfterPut(r, prev, running, now))
  {
  }

  lemma AfterSetFrames(r: Rq, next: Option<Id>, now: int)
    requires r.now <= now && (next.Some? ==> next.value !in r.away)
    ensures Frames(r, AfterSet(r, next, now))
  {
  }

  /** A step of this runqueue leaves what others hold alone. */
  lemma StepFrames(r: Rq, s: Step)
    requires Inv(r) && Enabled(r, s) && !s.Elsewhere?
    ensures Frames(r, Apply(r, s))
  {
    match s
    case Schedule(prev, running, now) =>
      PickIsQueued(r);
      if PickTask(r).Some? { Fit(r, PickTask(r).value); }
      AfterPutFrames(r, prev, running, now);
      AfterSetFrames(AfterPut(r, prev, running, now), PickTask(r), now);
    case PickOther(prev, running, now) => AfterPutFrames(r, prev, running, now);
    case _ =>
  }

  // ---- What a step is for one entity.

  function EventOf(k: Track, s: Step, id: Id): E.Event {
    match s
    case Enqueue(x, flags, now) =>
      if x != id || id in k.r.queue then E.Pass(now)
      else if flags.Initial? then E.Start(now, flags.sec)
      else if flags.Recompute? then E.Wake(now)
      else if k.r.curr == Some(id) then E.Pass(now) else E.Requeue(now)
    case Dequeue(_, _) => E.Pass(k.r.now)
    case Tick(nsec, now) => if k.r.curr == Some(id) then E.Tick(now, nsec) else E.Pass(now)
    case SetParams(d1, d2, ctime) => if k.r.curr == Some(id) then E.SetParams(k.r.now, d1, d2, ctime) else E.Pass(k.r.now)
    case Schedule(prev, running, now) =>
      if prev == Some(id) then E.PutPrev(now, running)
      else if PickTask(k.r) == Some(id) then E.SetNext(now)
      else E.Pass(now)
    case PickOther(prev, running, now) => if prev == Some(id) then E.PutPrev(now, running) else E.Pass(now)
    case Elsewhere(_, _, now) => E.Pass(now)
  }

  /** The entity without its place in the tree. */
  function Core(e: E.Ent): E.Ent {
    e.(onRq := false)
  }

  /** The life is that of entity `id` up to now. */
  ghost predicate Mirrors(l: E.Life, k: Track, id: Id) {
    && E.LifeInv(l)
    && id in k.r.ents && l.e == Core(k.r.ents[id])
    && l.dispatched == (k.onCpu == Some(id)) && l.now == k.r.now
  }

  /** A step gives the entity exactly what the event gives the life. */
  lemma EnqueueCore(r: Rq, x: Id, flags: Flags, now: int, id: Id)
    requires Inv(r) && Enabled(r, Enqueue(x, flags, now)) && id in r.ents
    ensures var q := EnqueueTask(r, x, flags, now);
      && id in q.ents && q.now == now
      && Core(q.ents[id]) ==
        if x != id || id in r.queue then Core(r.ents[id])
        else if r.curr == Some(id) then Core(Revalued(r.ents[id], flags, now))
        else E.Entering(Core(Revalued(r.ents[id], flags, now)))
  {
    Fit(r, id);
    Fit(r, x);
  }

  lemma ScheduleCore(r: Rq, prev: Option<Id>, running: bool, now: int, id: Id)
    requires Inv(r) && PutReady(r, prev, running, now) && id in r.ents
    requires prev.Some? ==> prev.value !in r.queue
    ensures var q := Reschedule(r, prev, running, now);
      && id in q.ents && q.now == now
      && Core(q.ents[id]) ==
        if prev == Some(id) then
          if running then E.Entering(Core(Settled(r.ents[id], true, now))) else Core(Settled(r.ents[id], false, now))
        else if PickTask(r) == Some(id) then E.Dispatched(Core(r.ents[id]), now)
        else Core(r.ents[id])
  {
    PickIsQueued(r);
    if PickTask(r).Some? { Fit(r, PickTask(r).value); }
    if prev.Some? {
      Fit(r, prev.value);
      PutCore(r, prev.value, running, now, id);
    }
    SetCore(AfterPut(r, prev, running, now), PickTask(r), now, id);
  }

  lemma PutCore(r: Rq, prev: Id, running: bool, now: int, id: Id)
    requires prev in r.ents && id in r.ents && !r.ents[prev].onRq
    ensures var q := PutPrevTask(r, prev, running, now);
      && q.ents.Keys == r.ents.Keys && q.now == now
      && Core(q.ents[id]) ==
        if prev != id then Core(r.ents[id])
        else if running then E.Entering(Core(Settled(r.ents[id], true, now)))
        else Core(Settled(r.ents[id], false, now))
  {
  }

  lemma SetCore(r: Rq, next: Option<Id>, now: int, id: Id)
    requires id in r.ents && (next.Some? ==> next.value in r.ents) && r.now == now
    ensures var q := AfterSet(r, next, now);
      && id in q.ents && q.now == now
      && Core(q.ents[id]) == if next == Some(id) then E.Dispatched(Core(r.ents[id]), now) else Core(r.ents[id])
  {
  }

  lemma RevaluedCore(e: E.Ent, flags: Flags, now: int)
    requires CanRevalue(e, flags)
    ensures CanRevalue(Core(e), flags) && Core(Revalued(e, flags, now)) == Revalued(Core(e), flags, now)
  {
  }

  /** Every step of the runqueue is an event of the entity's life. */
  lemma StepMirrors(k: Track, s: Step, l: E.Life, id: Id)
    requires TrackInv(k) && Enabled(k.r, s) && Orderly(k, s) && !s.Elsewhere? && Mirrors(l, k, id)
    ensures E.Enabled(l, EventOf(k, s, id))
    ensures Mirrors(E.Apply(l, EventOf(k, s, id)), Next(k, s), id)
  {
    E.EventKeeps(l, EventOf(k, s, id));
    match s
    case Enqueue(x, flags, now) => EnqueueMirrors(k, x, flags, now, l, id);
    case Dequeue(x, running) => Fit(k.r, x);
    case Tick(_, _) =>
    case SetParams(_, _, _) =>
    case Schedule(prev, running, now) => ScheduleMirrors(k, prev, running, now, l, id);
    case PickOther(prev, running, now) => PickOtherMirrors(k, prev, running, now, l, id);
  }

  lemma EnqueueMirrors(k: Track, x: Id, flags: Flags, now: int, l: E.Life, id: Id)
    requires var s := Enqueue(x, flags, now); TrackInv(k) && Enabled(k.r, s) && Orderly(k, s) && Mirrors(l, k, id)
    ensures var s := Enqueue(x, flags, now); E.Enabled(l, EventOf(k, s, id)) && Mirrors(E.Apply(l, EventOf(k, s, id)), Next(k, s), id)
  {
    EnqueueCore(k.r, x, flags, now, id);
    if x == id { RevaluedCore(k.r.ents[id], flags, now); }
    E.EventKeeps(l, EventOf(k, Enqueue(x, flags, now), id));
  }

  lemma ScheduleMirrors(k: Track, prev: Option<Id>, running: bool, now: int, l: E.Life, id: Id)
    requires var s := Schedule(prev, running, now); TrackInv(k) && Enabled(k.r, s) && Orderly(k, s) && Mirrors(l, k, id)
    ensures var s := Schedule(prev, running, now); E.Enabled(l, EventOf(k, s, id)) && Mirrors(E.Apply(l, EventOf(k, s, id)), Next(k, s), id)
  {
    ScheduleCore(k.r, prev, running, now, id);
    PickIsQueued(k.r);
    E.EventKeeps(l, EventOf(k, Schedule(prev, running, now), id));
  }

  lemma PickOtherMirrors(k: Track, prev: Option<Id>, running: bool, now: int, l: E.Life, id: Id)
    requires var s := PickOther(prev, running, now); TrackInv(k) && Enabled(k.r, s) && Orderly(k, s) && Mirrors(l, k, id)
    ensures var s := PickOther(prev, running, now); E.Enabled(l, EventOf(k, s, id)) && Mirrors(E.Apply(l, EventOf(k, s, id)), Next(k, s), id)
  {
    if prev.Some? {
      Fit(k.r, prev.value);
      PutCore(k.r, prev.value, running, now, id);
    }
    E.EventKeeps(l, EventOf(k, PickOther(prev, running, now), id));
  }

  // ---- Runs.

  predicate TracksAt(ks: seq<Track>, steps: seq<Step>, i: nat) {
    && i < |steps| && |ks| == |steps| + 1
    && Enabled(ks[i].r, steps[i]) && Orderly(ks[i], steps[i]) && ks[i + 1] == Next(ks[i], steps[i])
  }

  predicate IsTracked(ks: seq<Track>, steps: seq<Step>) {
    && |ks| == |steps| + 1 && Init(ks[0].r) && ks[0].onCpu == None
    && forall i: nat :: i < |steps| ==> TracksAt(ks, steps, i)
  }

  lemma {:induction false} TrackedRunKeeps(ks: seq<Track>, steps: seq<Step>, i: nat)
    requires IsTracked(ks, steps) && i < |ks|
    ensures TrackInv(ks[i])
  {
    if i == 0 {
      forall x: Id ensures Fits(ks[0].r.queue, ks[0].r.away, ks[0].r.ents, ks[0].r.now, ks[0].r.stamp, ks[0].r.ticket, x) {
      }
    } else {
      TrackedRunKeeps(ks, steps, i - 1);
      assert TracksAt(ks, steps, i - 1);
      TrackKeeps(ks[i - 1], steps[i - 1]);
    }
  }

  // ---- The CPU is charged once.

  /** What step `s` adds to somebody's used time. */
  function Charge(k: Track, s: Step): int {
    if Switches(s) && s.prev.Some? && s.prev.value in k.r.ents then s.now - k.r.ents[s.prev.value].latest else 0
  }

  function Charged(ks: seq<Track>, steps: seq<Step>, n: nat): int
    requires n <= |steps| < |ks|
  {
    if n == 0 then 0 else Charged(ks, steps, n - 1) + Charge(ks[n - 1], steps[n - 1])
  }

  /** Time up to here has been charged or was not HVF's: the last dispatch, or now if no HVF task is on the CPU. */
  function Settlement(k: Track): int {
    if k.onCpu.Some? && k.onCpu.value in k.r.ents then k.r.ents[k.onCpu.value].latest else k.r.now
  }

  lemma ChargeAdvances(k: Track, s: Step)
    requires TrackInv(k) && Enabled(k.r, s) && Orderly(k, s)
    ensures 0 <= Charge(k, s) <= Settlement(Next(k, s)) - Settlement(k)
  {
    if k.onCpu.Some? { Fit(k.r, k.onCpu.value); }
    match s
    case Enqueue(x, flags, now) =>
      if k.onCpu.Some? { EnqueueCore(k.r, x, flags, now, k.onCpu.value); }
    case Dequeue(_, _) =>
    case Tick(_, _) =>
    case SetParams(_, _, _) =>
    case Elsewhere(_, _, _) =>
    case PickOther(prev, running, now) => AfterPutKeeps(k.r, prev, running, now);
    case Schedule(prev, running, now) =>
      PickIsQueued(k.r);
      if PickTask(k.r).Some? {
        Fit(k.r, PickTask(k.r).value);
        ScheduleCore(k.r, prev, running, now, PickTask(k.r).value);
      }
  }

  /** Over every run the time charged to all entities together is at most the time that has passed. */
  lemma {:induction false} ChargesNeverOverlap(ks: seq<Track>, steps: seq<Step>, n: nat)
    requires IsTracked(ks, steps) && n <= |steps|
    ensures 0 <= Charged(ks, steps, n) <= Settlement(ks[n]) - ks[0].r.now <= ks[n].r.now - ks[0].r.now
  {
    TrackedRunKeeps(ks, steps, n);
    if ks[n].onCpu.Some? { Fit(ks[n].r, ks[n].onCpu.value); }
    if n > 0 {
      ChargesNeverOverlap(ks, steps, n - 1);
      TrackedRunKeeps(ks, steps, n - 1);
      assert TracksAt(ks, steps, n - 1);
      ChargeAdvances(ks[n - 1], steps[n - 1]);
    }
  }
}
