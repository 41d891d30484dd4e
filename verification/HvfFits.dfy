/**
 64 bits suffice: over every life, every intermediate result of every event fits its C type, as
 long as the clock, the parameters, the overrun, and the number and size of ticks and the number of
 dispatches are bounded. The time used needs no bound of its own: it is conserved. So these bounds
 imply the condition under which a life as written is as intended.
 */
module HvfFits {
  import opened Basics
  import opened HvfValue
  import opened HvfEntity
  import opened HvfWords
  import opened HvfWordLives
  import S = HvfSlice

  const OVERRUN: int := 303700049

  /** The longest tick, at 100 Hz, in nanoseconds, and how many there may be. */
  const TICK: int := 10_000_000
  const TICKS: int := 900_000_000_000

  // ---- The bounds.

  predicate Params(d1: int, d2: int, ctime: int) {
    0 < d1 < d2 && d2 * (K * H) < TWO63 && -TWO63 <= ctime && CLOCK + ctime < TWO63
  }

  predicate Overrun(e: Ent) {
    e.used - e.ctime <= OVERRUN
  }

  /** What an event may bring. */
  predicate Modest(v: Event) {
    && Timely(v)
    && (v.SetParams? ==> Params(v.d1, v.d2, v.ctime))
    && (v.Tick? ==> 0 <= v.nsec <= TICK)
  }

  /** The ticks and the dispatches among the events from `a` to `b`. */
  function TickCount(events: seq<Event>, a: nat, b: nat): nat {
    if b <= a then 0 else TickCount(events, a, b - 1) + if b <= |events| && events[b - 1].Tick? then 1 else 0
  }

  function DispatchCount(events: seq<Event>, n: nat): nat {
    if n == 0 then 0 else DispatchCount(events, n - 1) + if n <= |events| && events[n - 1].SetNext? then 1 else 0
  }

  /** The parameters and times of an entity in bounds. */
  predicate Bounded(l: Life) {
    Clock(l.now) && 0 <= l.e.first && 0 <= l.e.latest <= l.now && Params(l.e.d1, l.e.d2, l.e.ctime)
  }

  // ---- The intermediate results.

  /** compute_init_sched_value */
  predicate ComputedFits(e: Ent) {
    var x := e.first + e.ctime;
    && Fits64(x) && Fits64(e.d1 * K) && Fits64(e.d2 * K) && Fits64(e.d2 - e.d1) && Fits64((e.d2 - e.d1) * K)
    && (e.d1 * K <= x <= e.d2 * K ==> Fits64(e.d2 * K - x) && Fits64((e.d2 * K - x) * H))
  }

  /** exceeded_time and penalty_hvf_entity */
  predicate EnteringFits(e: Ent) {
    e.used > e.ctime ==>
      var diff := e.used - e.ctime;
      && Fits64(diff) && Fits64(diff * diff) && Fits64(diff * diff * e.value)
      && Fits64(e.value - TruncDiv(diff * diff * e.value, 100))
  }

  /** update_used_se_hvf and reduce_sched_value */
  predicate PutFits(e: Ent, now: int) {
    && Fits64(now - e.latest) && Fits64(e.used + (now - e.latest))
    && Fits64(Accounted(e, now).used * e.value)
    && Fits64(e.value - TruncDiv(Accounted(e, now).used * e.value, 100))
  }

  /** task_tick_hvf and time_slice */
  predicate TickFits(e: Ent, nsec: int) {
    Fits64(e.runtime + nsec) && Fits64(e.value * (K - 10)) && Fits64(TimeSlice(e.value) * K * K)
  }

  predicate StartFits(e: Ent, now: int, sec: int, queued: bool)
    requires Admissible(e)
  {
    && Fits64(sec + 6) && ComputedFits(Initialized(WithDefaults(e, sec), now))
    && (queued ==> EnteringFits(Restarted(e, now, sec)))
  }

  predicate EventFits(l: Life, v: Event)
    requires l.e.parsSet && l.e.d1 < l.e.d2
  {
    match v
    case Start(now, sec) => StartFits(l.e, now, sec, !l.dispatched)
    case Wake(_) => ComputedFits(l.e) && (!l.dispatched ==> EnteringFits(Computed(l.e)))
    case Requeue(_) => EnteringFits(l.e)
    case SetNext(_) => l.e.answers + 1 < TWO31
    case Tick(_, nsec) => TickFits(l.e, nsec)
    case PutPrev(now, runnable) => PutFits(l.e, now) && (runnable ==> EnteringFits(Decayed(Accounted(l.e, now))))
    case _ => true
  }

  // ---- Each fits.

  lemma ComputedFit(e: Ent)
    requires 0 <= e.first <= CLOCK && Params(e.d1, e.d2, e.ctime)
    ensures ComputedFits(e)
  {
    InitValueFits(e.first, e.ctime, e.d1, e.d2);
  }

  lemma EnteringFit(e: Ent)
    requires Overrun(e) && 0 <= e.value <= H
    ensures EnteringFits(e)
  {
    var diff := e.used - e.ctime;
    if diff > 0 {
      PenaltyFits(diff);
      assert Fits64(diff * diff * 1) && Fits64(diff * diff * e.value);
      PenalizedInRange(e.used, e.ctime, e.value);
      PenaltyStays(diff * diff * e.value, e.value);
    }
  }

  lemma PenaltyStays(n: int, v: int)
    requires Fits64(n) && 0 <= v <= H
    ensures Fits64(v - TruncDiv(n, 100))
  {
  }

  lemma PutFit(e: Ent, now: int)
    requires 0 <= e.latest <= now <= CLOCK && 0 <= Accounted(e, now).used <= now && 0 <= e.value <= H
    ensures PutFits(e, now)
  {
    DecayAndTickFit(Accounted(e, now).used, e.value);
    PenaltyStays(Accounted(e, now).used * e.value, e.value);
  }

  /** The parameters an enqueue from scratch works with are in bounds, given or by default. */
  lemma DefaultsFit(e: Ent, now: int, sec: int)
    requires Clock(now) && 0 <= sec && sec * K <= now && (e.parsSet ==> Params(e.d1, e.d2, e.ctime))
    ensures var w := WithDefaults(e, sec); Params(w.d1, w.d2, w.ctime) && Fits64(sec + 6)
  {
  }

  lemma StartFit(e: Ent, now: int, sec: int)
    requires Clock(now) && 0 <= sec && sec * K <= now && (e.parsSet ==> Params(e.d1, e.d2, e.ctime))
    requires Overrun(Restarted(e, now, sec))
    ensures StartFits(e, now, sec, true)
  {
    DefaultsFit(e, now, sec);
    ComputedFit(Initialized(WithDefaults(e, sec), now));
    StartedInRange(e, now, sec);
    EnteringFit(Restarted(e, now, sec));
  }

  /** What an event leaves alone: the penalty and the decay change the value and clear the flag only. */
  lemma EventFrame(l: Life, v: Event)
    requires LifeInv(l) && Enabled(l, v)
    ensures var e := Apply(l, v).e;
      match v
      case Start(now, sec) => var r := Restarted(l.e, now, sec); e == r.(value := e.value)
      case SetParams(_, d1, d2, c) => e == WithParams(l.e, d1, d2, c)
      case SetNext(now) => e == Dispatched(l.e, now)
      case Tick(_, nsec) => e == Ticked(l.e, nsec)
      case PutPrev(now, _) => e == Accounted(l.e, now).(value := e.value, expired := e.expired)
      case _ => e == l.e.(value := e.value, initValue := e.initValue)
  {
  }

  lemma StaysInBounds(l: Life, v: Event)
    requires LifeInv(l) && Enabled(l, v) && Bounded(l) && Modest(v)
    ensures Bounded(Apply(l, v))
  {
    EventFrame(l, v);
    if v.Start? { DefaultsFit(l.e, v.now, v.sec); }
  }

  /** One event: everything fits, if the counters do. */
  lemma EventFit(l: Life, v: Event)
    requires LifeInv(l) && Enabled(l, v) && Bounded(l) && Modest(v) && Overrun(Apply(l, v).e)
    requires v.SetNext? ==> l.e.answers + 1 < TWO31
    requires v.Tick? ==> Fits64(l.e.runtime + v.nsec)
    ensures EventFits(l, v)
  {
    EventFrame(l, v);
    UsedIsBounded(l, v.now);
    match v
    case Start(now, sec) => StartFit(l.e, now, sec);
    case Wake(_) => WakeFit(l);
    case Requeue(_) => EnteringFit(l.e);
    case SetParams(_, _, _, _) =>
    case SetNext(_) =>
    case Tick(_, nsec) => DecayAndTickFit(0, l.e.value);
    case PutPrev(now, runnable) => PutPrevFit(l, now, runnable);
    case Pass(_) =>
  }

  lemma WakeFit(l: Life)
    requires LifeInv(l) && Bounded(l) && Overrun(l.e) && l.e.first <= l.now
    ensures ComputedFits(l.e) && EnteringFits(Computed(l.e))
  {
    ComputedFit(l.e);
    InitValueClamped(l.e.first + l.e.ctime, l.e.d1, l.e.d2);
    EnteringFit(Computed(l.e));
  }

  lemma PutPrevFit(l: Life, now: int, runnable: bool)
    requires LifeInv(l) && Bounded(l) && l.dispatched && l.now <= now <= CLOCK && Overrun(Accounted(l.e, now))
    ensures PutFits(l.e, now) && (runnable ==> EnteringFits(Decayed(Accounted(l.e, now))))
  {
    UsedIsBounded(l, now);
    PutFit(l.e, now);
    DecayedInRange(Accounted(l.e, now));
    EnteringFit(Decayed(Accounted(l.e, now)));
  }

  // ---- Lives.

  predicate ModestAt(lives: seq<Life>, events: seq<Event>, i: nat) {
    i < |events| < |lives| && Modest(events[i]) && Overrun(lives[i + 1].e)
  }

  /** A modest life: it begins in bounds, so is everything that happens, and there are not too many ticks and dispatches. */
  ghost predicate IsModest(lives: seq<Life>, events: seq<Event>) {
    && |lives| == |events| + 1 && Bounded(lives[0])
    && TickCount(events, 0, |events|) <= TICKS && DispatchCount(events, |events|) < TWO31
    && forall i: nat :: i < |events| ==> ModestAt(lives, events, i)
  }

  /** The dispatch under way. */
  lemma {:induction false} LastDispatch(lives: seq<Life>, events: seq<Event>, n: nat) returns (i: nat)
    requires IsLife(lives, events) && n < |lives| && lives[n].dispatched
    ensures S.Dispatch(events, i, n)
  {
    LifeStep(lives, events, n - 1);
    if events[n - 1].SetNext? { i := n - 1; } else { i := LastDispatch(lives, events, n - 1); }
  }

  lemma {:induction false} TicksAddUp(events: seq<Event>, a: nat, b: nat)
    requires b <= |events| && forall m :: a <= m < b ==> Modest(events[m])
    ensures 0 <= S.TickSum(events, a, b) <= TICK * TickCount(events, a, b)
  {
    if a < b { TicksAddUp(events, a, b - 1); }
  }

  lemma {:induction false} FewerTicks(events: seq<Event>, a: nat, b: nat, c: nat)
    requires b <= c
    ensures TickCount(events, a, b) <= TickCount(events, 0, c)
  {
    if b < c { FewerTicks(events, a, b, c - 1); } else if a < b { FewerTicks(events, a, b - 1, c - 1); }
  }

  lemma {:induction false} FewerDispatches(events: seq<Event>, a: nat, b: nat)
    requires a <= b
    ensures DispatchCount(events, a) <= DispatchCount(events, b)
  {
    if a < b { FewerDispatches(events, a, b - 1); }
  }

  /** The runtime is the ticks of the dispatch, so it fits. */
  lemma RuntimeFits(lives: seq<Life>, events: seq<Event>, n: nat)
    requires IsLife(lives, events) && IsModest(lives, events) && n < |events| && events[n].Tick?
    ensures Fits64(lives[n].e.runtime + events[n].nsec)
  {
    LifeStep(lives, events, n);
    var i := LastDispatch(lives, events, n);
    S.RuntimeIsTicks(lives, events, i, n);
    forall m: nat | m <= n ensures Modest(events[m]) { assert ModestAt(lives, events, m); }
    TicksAddUp(events, i + 1, n);
    FewerTicks(events, i + 1, n, |events|);
  }

  lemma {:induction false} AnswersWithinDispatches(lives: seq<Life>, events: seq<Event>, n: nat)
    requires IsLife(lives, events) && n < |lives|
    ensures 0 <= lives[n].e.answers <= DispatchCount(events, n)
  {
    if n == 0 {
      var e: Ent, now: int, sec: int :| Admissible(e) && lives[0] == Born(e, now, sec);
      StartedInRange(e, now, sec);
    } else {
      AnswersWithinDispatches(lives, events, n - 1);
      LifeStep(lives, events, n - 1);
      EventFrame(lives[n - 1], events[n - 1]);
    }
  }

  lemma AnswersFit(lives: seq<Life>, events: seq<Event>, n: nat)
    requires IsLife(lives, events) && IsModest(lives, events) && n < |events| && events[n].SetNext?
    ensures lives[n].e.answers + 1 < TWO31
  {
    AnswersWithinDispatches(lives, events, n);
    FewerDispatches(events, n + 1, |events|);
  }

  lemma {:induction false} StaysBounded(lives: seq<Life>, events: seq<Event>, i: nat)
    requires IsLife(lives, events) && IsModest(lives, events) && i < |lives|
    ensures Bounded(lives[i])
  {
    if i > 0 {
      StaysBounded(lives, events, i - 1);
      LifeStep(lives, events, i - 1);
      assert ModestAt(lives, events, i - 1);
      StaysInBounds(lives[i - 1], events[i - 1]);
    }
  }

  /** In every modest life, every intermediate result of every event fits. */
  lemma LifeFits(lives: seq<Life>, events: seq<Event>, i: nat)
    requires IsLife(lives, events) && IsModest(lives, events) && i < |events|
    ensures lives[i].e.parsSet && lives[i].e.d1 < lives[i].e.d2 && EventFits(lives[i], events[i])
  {
    StaysBounded(lives, events, i);
    LifeStep(lives, events, i);
    assert ModestAt(lives, events, i);
    if events[i].SetNext? { AnswersFit(lives, events, i); }
    if events[i].Tick? { RuntimeFits(lives, events, i); }
    EventFit(lives[i], events[i]);
  }

  lemma FittingIsExact(l: Life, v: Event)
    requires LifeInv(l) && EventFits(l, v)
    ensures Exact(l.e, l.dispatched, v)
  {
  }

  /** So in a modest life every event meets the condition for being as intended when written in words. */
  lemma ModestIsExact(lives: seq<Life>, events: seq<Event>, i: nat)
    requires IsLife(lives, events) && IsModest(lives, events) && i < |events|
    ensures ExactAt(lives, events, i)
  {
    LifeFits(lives, events, i);
    LifeStep(lives, events, i);
    FittingIsExact(lives[i], events[i]);
  }

  /** So does the first enqueue, which begins the life in bounds. */
  lemma BirthFits(e: Ent, now: int, sec: int)
    requires Admissible(e) && Clock(now) && 0 <= sec && sec * K <= now && (e.parsSet ==> Params(e.d1, e.d2, e.ctime))
    requires Overrun(Restarted(e, now, sec))
    ensures StartFits(e, now, sec, true) && Bounded(Born(e, now, sec))
  {
    StartFit(e, now, sec);
    DefaultsFit(e, now, sec);
    StartedInRange(e, now, sec);
    EnteringInRange(Restarted(e, now, sec));
  }
}
