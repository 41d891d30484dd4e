/**
 One HVF entity over its whole life: every sequence of wakeups, dispatches, ticks and
 preemptions. CPU time is conserved, values and slices stay in range, and a task that used up
 100 ms stays at the bottom until its value is recomputed.
 */
module HvfEntity {
  import opened HvfValue

  /** struct sched_hvf_entity and the task's scheduling parameters. */
  datatype Ent = Ent(
    initValue: int, value: int,
    first: int, latest: int, used: int, runtime: int,
    onRq: bool, answers: int, firstAnswer: int, expired: bool,
    parsSet: bool, d1: int, d2: int, ctime: int)

  /** Parameters are either unset, or admitted with the first deadline before the second. */
  predicate Admissible(e: Ent) {
    e.parsSet ==> e.d1 < e.d2
  }

  /** give_default_hvf_values at second `sec` */
  function WithDefaults(e: Ent, sec: int): Ent {
    if e.parsSet then e else e.(parsSet := true, d1 := sec + 4, d2 := sec + 6, ctime := K)
  }

  /** What an accepted set_scheduling_params stores. */
  function WithParams(e: Ent, d1: int, d2: int, ctime: int): Ent {
    e.(parsSet := true, d1 := d1, d2 := d2, ctime := ctime)
  }

  /** init_sched_hvf_entity */
  function Initialized(e: Ent, now: int): Ent {
    e.(first := now, latest := now, used := 0, answers := 0, expired := false)
  }

  /** compute_init_sched_value */
  function Computed(e: Ent): Ent
    requires e.d1 < e.d2
  {
    var v := InitValue(e.first + e.ctime, e.d1, e.d2);
    e.(initValue := v, value := v)
  }

  /** update_latest_se_hvf, on dispatch */
  function Dispatched(e: Ent, now: int): Ent {
    e.(latest := now, runtime := 0, answers := e.answers + 1,
       firstAnswer := if e.answers + 1 == 1 then now else e.firstAnswer)
  }

  /** update_used_se_hvf */
  function Accounted(e: Ent, now: int): Ent {
    e.(used := e.used + (now - e.latest))
  }

  /** What put_prev_task_hvf does to a runnable task's value. */
  function Decayed(e: Ent): Ent {
    if e.expired then e.(value := Reduced(e.used, e.value), expired := false) else e
  }

  /** What enqueue_hvf_entity does to the value: exceeding the announced time is penalized. */
  function Entering(e: Ent): Ent {
    if e.used > e.ctime then e.(value := Penalized(e.used, e.ctime, e.value)) else e
  }

  /** task_tick_hvf, with TICK_NSEC depending on the configuration */
  function Ticked(e: Ent, tick: int): Ent {
    var runtime := e.runtime + tick;
    e.(runtime := runtime, expired := e.expired || runtime >= TimeSlice(e.value) * K * K)
  }

  // ---- Lives.

  datatype Interval = Interval(from: int, to: int)

  /** An entity with its history: whether it is dispatched, the clock, and its past dispatches. */
  datatype Life = Life(e: Ent, dispatched: bool, now: int, busy: seq<Interval>, spent: bool)

  datatype Event =
    | Start(now: int, sec: int)                  // enqueue that starts over, also of the current task
    | Wake(now: int)                             // enqueue that recomputes the value, also of the current task
    | Requeue(now: int)                          // enqueue that does not
    | SetParams(now: int, d1: int, d2: int, ctime: int)
    | SetNext(now: int)
    | Tick(now: int, nsec: int)
    | PutPrev(now: int, runnable: bool)
    | Pass(now: int)                             // nothing that concerns this entity

  predicate Enabled(l: Life, v: Event) {
    && l.now <= v.now                            // the clock does not go backwards
    && match v
       case SetParams(_, d1, d2, _) => d1 < d2
       case Tick(_, _) => l.dispatched
       case PutPrev(_, _) => l.dispatched
       case Start(_, _) => true
       case Wake(_) => true
       case Pass(_) => true
       case _ => !l.dispatched
  }

  /** What the event makes of the entity. */
  function Changed(e: Ent, dispatched: bool, v: Event): Ent
    requires e.parsSet && e.d1 < e.d2
  {
    match v
    case Start(now, sec) => if dispatched then Restarted(e, now, sec) else Started(e, now, sec)
    case Wake(now) => if dispatched then Computed(e) else Entering(Computed(e))
    case Requeue(now) => Entering(e)
    case SetParams(now, d1, d2, c) => WithParams(e, d1, d2, c)
    case Pass(now) => e
    case SetNext(now) => Dispatched(e, now)
    case Tick(now, nsec) => Ticked(e, nsec)
    case PutPrev(now, runnable) => var a := Accounted(e, now); if runnable then Entering(Decayed(a)) else a
  }

  function Apply(l: Life, v: Event): Life
    requires l.e.parsSet && l.e.d1 < l.e.d2
  {
    var t := l.(e := Changed(l.e, l.dispatched, v), now := v.now);
    match v
    case Start(now, sec) => t.(busy := [], spent := false)
    case Wake(now) => t.(spent := false)
    case SetNext(now) => t.(dispatched := true)
    case PutPrev(now, runnable) =>
      var a := Accounted(l.e, now);
      t.(dispatched := false,
         busy := l.busy + [Interval(l.e.latest, now)],
         spent := l.spent || (runnable && a.expired && a.used >= 100))
    case _ => t
  }

  /** A life begins with its first enqueue. */
  ghost predicate Begins(l: Life) {
    exists e: Ent, now: int, sec: int :: Admissible(e) && l == Born(e, now, sec)
  }

  function Born(e: Ent, now: int, sec: int): Life
    requires Admissible(e)
  {
    Life(Started(e, now, sec), false, now, [], false)
  }

  /** What ENQUEUE_INITIAL and ENQUEUE_CHANGED do before the entity is queued. */
  function Restarted(e: Ent, now: int, sec: int): Ent
    requires Admissible(e)
  {
    Computed(Initialized(WithDefaults(e, sec), now))
  }

  function Started(e: Ent, now: int, sec: int): Ent
    requires Admissible(e)
  {
    Entering(Restarted(e, now, sec))
  }

  /** A task without parameters starts with the full value. */
  lemma DefaultsGiveFullValue(e: Ent, sec: int, nsec: nat)
    requires !e.parsSet && nsec < 1_000_000_000
    ensures Started(e, Millis(sec, nsec), sec).value == H
  {
  }

  // ---- Time.

  function Total(b: seq<Interval>): int {
    if b == [] then 0 else Total(b[..|b| - 1]) + (b[|b| - 1].to - b[|b| - 1].from)
  }

  /** Disjoint, in order, between `lo` and `hi`. */
  predicate Within(b: seq<Interval>, lo: int, hi: int) {
    if b == [] then lo <= hi
    else var i := b[|b| - 1]; i.from <= i.to <= hi && Within(b[..|b| - 1], lo, i.from)
  }

  lemma {:induction false} TotalFits(b: seq<Interval>, lo: int, hi: int)
    requires Within(b, lo, hi)
    ensures 0 <= Total(b) <= hi - lo
  {
    if b != [] { TotalFits(b[..|b| - 1], lo, b[|b| - 1].from); }
  }

  lemma {:induction false} WithinLater(b: seq<Interval>, lo: int, hi: int, hi': int)
    requires Within(b, lo, hi) && hi <= hi'
    ensures Within(b, lo, hi')
  {
  }

  predicate LifeInv(l: Life) {
    && l.e.parsSet && l.e.d1 < l.e.d2
    && l.e.used == Total(l.busy)
    && Within(l.busy, l.e.first, if l.dispatched then l.e.latest else l.now)
    && (l.dispatched ==> l.e.latest <= l.now)
    && (l.e.answers > 0 ==> l.e.first <= l.e.firstAnswer <= l.now)
    && 0 <= l.e.value <= H
    && (l.spent ==> l.e.used >= 100 && l.e.value <= 10)
  }

  lemma EnteringInRange(e: Ent)
    requires 0 <= e.value <= H
    ensures var e' := Entering(e); 0 <= e'.value <= H && (e.value <= 10 ==> e'.value <= 10) && e' == e.(value := e'.value)
  {
    PenalizedInRange(e.used, e.ctime, e.value);
  }

  lemma StartedInRange(e: Ent, now: int, sec: int)
    requires Admissible(e)
    ensures var e' := Started(e, now, sec);
      && 0 <= e'.value <= H && e'.parsSet && e'.d1 < e'.d2
      && e'.first == now == e'.latest && e'.used == 0 && e'.answers == 0 && !e'.expired
    ensures 0 <= Restarted(e, now, sec).value <= H
  {
    var i := Initialized(WithDefaults(e, sec), now);
    InitValueClamped(now + i.ctime, i.d1, i.d2);
    EnteringInRange(Computed(i));
  }

  lemma DecayedInRange(e: Ent)
    requires 0 <= e.value <= H && e.used >= 0
    ensures var e' := Decayed(e);
      && 0 <= e'.value <= H && (e.value <= 10 || (e.expired && e.used >= 100) ==> e'.value <= 10)
      && e' == e.(value := e'.value, expired := false)
  {
    DecayInRange(e.used, e.value);
    if e.used >= 100 { ReducedToNothing(e.used, e.value); }
  }

  lemma PutPrevKeeps(l: Life, v: Event)
    requires LifeInv(l) && Enabled(l, v) && v.PutPrev?
    ensures LifeInv(Apply(l, v))
  {
    var l' := Apply(l, v);
    var a := Accounted(l.e, v.now);
    assert l'.busy[..|l'.busy| - 1] == l.busy;
    WithinLater(l.busy, l.e.first, l.e.latest, l.e.latest);
    TotalFits(l.busy, l.e.first, l.e.latest);
    DecayedInRange(a);
    EnteringInRange(Decayed(a));
  }

  lemma EventKeeps(l: Life, v: Event)
    requires LifeInv(l) && Enabled(l, v)
    ensures LifeInv(Apply(l, v))
  {
    match v
    case PutPrev(_, _) => PutPrevKeeps(l, v);
    case Start(now, sec) => StartedInRange(l.e, now, sec);
    case Wake(now) =>
      if !l.dispatched { WithinLater(l.busy, l.e.first, l.now, now); }
      InitValueClamped(l.e.first + l.e.ctime, l.e.d1, l.e.d2);
      EnteringInRange(Computed(l.e));
    case Requeue(now) =>
      WithinLater(l.busy, l.e.first, l.now, now);
      EnteringInRange(l.e);
    case SetParams(now, _, _, _) => if !l.dispatched { WithinLater(l.busy, l.e.first, l.now, now); }
    case Pass(now) => if !l.dispatched { WithinLater(l.busy, l.e.first, l.now, now); }
    case SetNext(now) =>
      WithinLater(l.busy, l.e.first, l.now, now);
      TotalFits(l.busy, l.e.first, now);
    case Tick(_, _) =>
  }

  /** A life: it begins, and every event is enabled where it happens. */
  ghost predicate IsLife(lives: seq<Life>, events: seq<Event>) {
    && |lives| == |events| + 1 && Begins(lives[0])
    && (forall i: nat :: i < |events| ==> FollowsAt(lives, events, i))
  }

  predicate FollowsAt(lives: seq<Life>, events: seq<Event>, i: nat) {
    i < |events| && |lives| == |events| + 1 && Follows(lives[i], events[i], lives[i + 1])
  }

  predicate Follows(l: Life, v: Event, l': Life) {
    l.e.parsSet && l.e.d1 < l.e.d2 && Enabled(l, v) && l' == Apply(l, v)
  }

  lemma {:induction false} LifeIsSound(lives: seq<Life>, events: seq<Event>, i: nat)
    requires IsLife(lives, events) && i < |lives|
    ensures LifeInv(lives[i])
  {
    if i == 0 {
      var e: Ent, now: int, sec: int :| Admissible(e) && lives[0] == Born(e, now, sec);
      StartedInRange(e, now, sec);
    } else {
      LifeIsSound(lives, events, i - 1);
      assert FollowsAt(lives, events, i - 1);
      EventKeeps(lives[i - 1], events[i - 1]);
    }
  }

  /**
   CPU time is conserved: the time used is the total of disjoint dispatch intervals since the
   first enqueue. So the wait time reported at exit, and once dispatched the response time, are
   never negative.
   */
  lemma TimeIsConserved(lives: seq<Life>, events: seq<Event>, i: nat)
    requires IsLife(lives, events) && i < |lives|
    ensures var l := lives[i];
      && l.e.used == Total(l.busy) && Within(l.busy, l.e.first, l.now)
      && (l.now - l.e.first) - l.e.used >= 0
      && (l.e.answers > 0 ==> l.e.firstAnswer - l.e.first >= 0)
  {
    LifeIsSound(lives, events, i);
    var l := lives[i];
    WithinLater(l.busy, l.e.first, if l.dispatched then l.e.latest else l.now, l.now);
    TotalFits(l.busy, l.e.first, l.now);
  }

  /** A life goes on with any event that is enabled. */
  lemma Longer(lives: seq<Life>, events: seq<Event>, v: Event)
    requires IsLife(lives, events) && LifeInv(lives[|events|]) && Enabled(lives[|events|], v)
    ensures IsLife(lives + [Apply(lives[|events|], v)], events + [v])
  {
    var lives', events' := lives + [Apply(lives[|events|], v)], events + [v];
    forall j: nat | j < |events'| ensures FollowsAt(lives', events', j) {
      if j < |events| { assert FollowsAt(lives, events, j); }
    }
  }

  /** The step from one state of a life to the next. */
  lemma LifeStep(lives: seq<Life>, events: seq<Event>, i: nat)
    requires IsLife(lives, events) && i < |events|
    ensures LifeInv(lives[i]) && Enabled(lives[i], events[i]) && lives[i + 1] == Apply(lives[i], events[i])
  {
    LifeIsSound(lives, events, i);
    assert FollowsAt(lives, events, i);
  }

  /** In every state the value is in 0..100, the slice in 10..109 ms, and a spent task's value at most 10. */
  lemma ValuesStayInRange(lives: seq<Life>, events: seq<Event>, i: nat)
    requires IsLife(lives, events) && i < |lives|
    ensures 0 <= lives[i].e.value <= H && 10 <= TimeSlice(lives[i].e.value) <= 109
    ensures lives[i].spent ==> lives[i].e.value <= 10
  {
    LifeIsSound(lives, events, i);
    SliceInRange(lives[i].e.value, lives[i].e.value);
  }

  /** Nothing recomputes the value between `i` and `j`. */
  predicate NotRecomputed(events: seq<Event>, i: nat, j: nat) {
    forall k :: i <= k < j && k < |events| ==> !events[k].Start? && !events[k].Wake?
  }

  lemma {:induction false} SpentLasts(lives: seq<Life>, events: seq<Event>, i: nat, j: nat)
    requires IsLife(lives, events) && i <= j < |lives| && NotRecomputed(events, i, j) && lives[i].spent
    ensures lives[j].spent
  {
    if i < j {
      SpentLasts(lives, events, i, j - 1);
      assert FollowsAt(lives, events, j - 1);
    }
  }

  /** Once a task has used 100 ms and is then preempted with an expired slice, its value stays at most 10 until recomputed. */
  lemma SpentTaskStaysLow(lives: seq<Life>, events: seq<Event>, i: nat, j: nat)
    requires IsLife(lives, events) && i < j < |lives| && NotRecomputed(events, i + 1, j)
    requires events[i].PutPrev? && events[i].runnable && lives[i].e.expired && lives[i + 1].e.used >= 100
    ensures lives[j].e.value <= 10
  {
    assert FollowsAt(lives, events, i);
    assert lives[i + 1].e.used == Accounted(lives[i].e, events[i].now).used;
    SpentLasts(lives, events, i + 1, j);
    LifeIsSound(lives, events, j);
  }

  // ---- Answers.

  /** The dispatches among the first `n` events, since the last one that started over. */
  function DispatchesSince(events: seq<Event>, n: nat): nat
    requires n <= |events|
  {
    if n == 0 || events[n - 1].Start? then 0
    else DispatchesSince(events, n - 1) + if events[n - 1].SetNext? then 1 else 0
  }

  /** The entity counts its dispatches since it started. */
  lemma {:induction false} AnswersAreDispatches(lives: seq<Life>, events: seq<Event>, n: nat)
    requires IsLife(lives, events) && n < |lives|
    ensures lives[n].e.answers == DispatchesSince(events, n)
  {
    if n == 0 {
      var e: Ent, now: int, sec: int :| Admissible(e) && lives[0] == Born(e, now, sec);
      StartedInRange(e, now, sec);
    } else {
      AnswersAreDispatches(lives, events, n - 1);
      LifeStep(lives, events, n - 1);
    }
  }

  /** In every life: the first answer is the time of the first dispatch since the entity started. */
  lemma {:induction false} FirstAnswerIsFirstDispatch(lives: seq<Life>, events: seq<Event>, n: nat) returns (m: nat)
    requires IsLife(lives, events) && n < |lives| && lives[n].e.answers > 0
    ensures m < n && events[m].SetNext? && DispatchesSince(events, m) == 0 && lives[n].e.firstAnswer == events[m].now
    ensures forall j :: m <= j < n ==> !events[j].Start?
  {
    AnswersAreDispatches(lives, events, n);
    AnswersAreDispatches(lives, events, n - 1);
    LifeStep(lives, events, n - 1);
    if events[n - 1].SetNext? && lives[n - 1].e.answers == 0 {
      m := n - 1;
    } else {
      m := FirstAnswerIsFirstDispatch(lives, events, n - 1);
    }
  }
}
