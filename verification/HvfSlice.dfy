/**
 When a task is flagged for having used up its slice. The flag is set by the tick that reaches the
 slice, but a task that blocks keeps it: it is then carried into the next dispatch, and the next
 preemption decays the task although it has not used that slice.
 */
module HvfSlice {
  import opened HvfValue
  import opened HvfEntity

  /** Between states `a` and `b` nothing starts the entity over. */
  predicate NoStart(events: seq<Event>, a: nat, b: nat) {
    forall m :: a <= m < b && m < |events| ==> !events[m].Start?
  }

  predicate NoPut(events: seq<Event>, a: nat, b: nat) {
    forall m :: a <= m < b && m < |events| ==> !events[m].PutPrev?
  }

  /** The ticks between states `a` and `b`, in nanoseconds. */
  function TickSum(events: seq<Event>, a: nat, b: nat): int {
    if b <= a then 0 else TickSum(events, a, b - 1) + if b <= |events| && events[b - 1].Tick? then events[b - 1].nsec else 0
  }

  /** Event `i` dispatches the task, and up to state `n` it has not been put. */
  predicate Dispatch(events: seq<Event>, i: nat, n: nat) {
    i < n <= |events| && events[i].SetNext? && NoPut(events, i + 1, n)
  }

  /** During a dispatch the runtime is the sum of its ticks. */
  lemma {:induction false} RuntimeIsTicks(lives: seq<Life>, events: seq<Event>, i: nat, n: nat)
    requires IsLife(lives, events) && Dispatch(events, i, n)
    ensures lives[n].dispatched && lives[n].e.runtime == TickSum(events, i + 1, n)
  {
    LifeStep(lives, events, n - 1);
    if n > i + 1 { RuntimeIsTicks(lives, events, i, n - 1); }
  }

  /** Tick `m` of the dispatch brings its ticks up to the slice of the value at that moment. */
  predicate ReachesSlice(lives: seq<Life>, events: seq<Event>, i: nat, m: nat) {
    && m < |events| < |lives| && events[m].Tick?
    && SliceUsedUp(TickSum(events, i + 1, m + 1), lives[m].e.value)
  }

  /** The flag was carried into the dispatch and not cleared by starting over. */
  predicate CarriedIn(lives: seq<Life>, events: seq<Event>, i: nat, n: nat) {
    i < |lives| && lives[i].e.expired && NoStart(events, i + 1, n)
  }

  /** A tick of the dispatch reached the slice, and nothing started the task over since. */
  predicate Earned(lives: seq<Life>, events: seq<Event>, i: nat, n: nat) {
    exists m: nat :: i < m < n && ReachesSlice(lives, events, i, m) && NoStart(events, m + 1, n)
  }

  /** In every life, at every state of every dispatch: flagged iff carried in or earned. */
  lemma {:induction false} FlaggedIff(lives: seq<Life>, events: seq<Event>, i: nat, n: nat)
    requires IsLife(lives, events) && Dispatch(events, i, n)
    ensures lives[n].e.expired <==> CarriedIn(lives, events, i, n) || Earned(lives, events, i, n)
  {
    LifeStep(lives, events, n - 1);
    if n > i + 1 {
      FlaggedIff(lives, events, i, n - 1);
      RuntimeIsTicks(lives, events, i, n - 1);
      SliceUsedUpIff(TickSum(events, i + 1, n), lives[n - 1].e.value);
      EarnedStep(lives, events, i, n);
    }
  }

  /** One more event: earned before and not started over, or earned by this very tick. */
  lemma EarnedStep(lives: seq<Life>, events: seq<Event>, i: nat, n: nat)
    requires |lives| == |events| + 1 && i + 1 < n <= |events|
    ensures CarriedIn(lives, events, i, n) <==> CarriedIn(lives, events, i, n - 1) && !events[n - 1].Start?
    ensures Earned(lives, events, i, n) <==>
      (Earned(lives, events, i, n - 1) && !events[n - 1].Start?) || ReachesSlice(lives, events, i, n - 1)
  {
    if Earned(lives, events, i, n - 1) && !events[n - 1].Start? {
      var m: nat :| i < m < n - 1 && ReachesSlice(lives, events, i, m) && NoStart(events, m + 1, n - 1);
      assert NoStart(events, m + 1, n);
    }
    if Earned(lives, events, i, n) {
      var m: nat :| i < m < n && ReachesSlice(lives, events, i, m) && NoStart(events, m + 1, n);
      assert m < n - 1 ==> NoStart(events, m + 1, n - 1);
    }
    if ReachesSlice(lives, events, i, n - 1) { assert NoStart(events, n, n); }
  }

  /** The last put was of a blocked task with the flag set, and nothing started it over since. */
  predicate BlockedFlagged(lives: seq<Life>, events: seq<Event>, m: nat, n: nat) {
    && m < |events| < |lives| && events[m].PutPrev? && !events[m].runnable && lives[m].e.expired
    && NoPut(events, m + 1, n) && NoStart(events, m + 1, n)
  }

  predicate Carries(lives: seq<Life>, events: seq<Event>, n: nat) {
    exists m: nat :: m < n && BlockedFlagged(lives, events, m, n)
  }

  /** In every life: a task that is not dispatched carries the flag iff it blocked with it and has not started over. */
  lemma {:induction false} CarriesIff(lives: seq<Life>, events: seq<Event>, n: nat)
    requires IsLife(lives, events) && n < |lives| && !lives[n].dispatched
    ensures lives[n].e.expired <==> Carries(lives, events, n)
  {
    if n == 0 {
      NewbornUnflagged(lives[0]);
    } else {
      LifeStep(lives, events, n - 1);
      if !lives[n - 1].dispatched {
        CarriesIff(lives, events, n - 1);
        CarriesOn(lives, events, n);
      } else {
        CarriesPut(lives, events, n);
      }
    }
  }

  lemma NewbornUnflagged(l: Life)
    requires Begins(l)
    ensures !l.e.expired
  {
    var e: Ent, now: int, sec: int :| Admissible(e) && l == Born(e, now, sec);
    StartedInRange(e, now, sec);
  }

  lemma CarriesOn(lives: seq<Life>, events: seq<Event>, n: nat)
    requires 0 < n <= |events| < |lives| && !events[n - 1].PutPrev?
    ensures Carries(lives, events, n) <==> Carries(lives, events, n - 1) && !events[n - 1].Start?
  {
    if Carries(lives, events, n - 1) && !events[n - 1].Start? {
      var m: nat :| m < n - 1 && BlockedFlagged(lives, events, m, n - 1);
      assert BlockedFlagged(lives, events, m, n);
    }
    if Carries(lives, events, n) {
      var m: nat :| m < n && BlockedFlagged(lives, events, m, n);
      assert m < n - 1 && BlockedFlagged(lives, events, m, n - 1);
    }
  }

  lemma CarriesPut(lives: seq<Life>, events: seq<Event>, n: nat)
    requires 0 < n <= |events| < |lives| && events[n - 1].PutPrev?
    ensures Carries(lives, events, n) <==> !events[n - 1].runnable && lives[n - 1].e.expired
  {
    if !events[n - 1].runnable && lives[n - 1].e.expired { assert BlockedFlagged(lives, events, n - 1, n); }
    if Carries(lives, events, n) {
      var m: nat :| m < n && BlockedFlagged(lives, events, m, n);
      assert m == n - 1;
    }
  }

  // ---- Lives in which the flag is carried.

  /** What an event does to the flag, the runtime and the time used. */
  predicate FlagStep(l: Life, v: Event, l': Life) {
    && l'.now == v.now
    && match v
       case SetNext(now) =>
         l'.dispatched && l'.e.runtime == 0 && l'.e.expired == l.e.expired && l'.e.used == l.e.used && l'.e.latest == now
       case Tick(_, nsec) =>
         && l'.dispatched && l'.e.runtime == l.e.runtime + nsec && l'.e.latest == l.e.latest && l'.e.used == l.e.used
         && (l'.e.runtime >= 109 * K * K ==> l'.e.expired)
       case PutPrev(now, runnable) =>
         !l'.dispatched && (!runnable ==> l'.e.expired == l.e.expired && l'.e.used == l.e.used + (now - l.e.latest))
       case Wake(_) => l'.dispatched == l.dispatched && l'.e.expired == l.e.expired && l'.e.used == l.e.used
       case _ => true
  }

  lemma EventFlags(l: Life, v: Event)
    requires LifeInv(l) && Enabled(l, v)
    ensures FlagStep(l, v, Apply(l, v))
  {
    SliceInRange(l.e.value, l.e.value);
  }

  lemma Next(lives: seq<Life>, events: seq<Event>, v: Event) returns (lives': seq<Life>)
    requires IsLife(lives, events) && Enabled(lives[|events|], v)
    ensures IsLife(lives', events + [v]) && lives' == lives + [lives'[|lives|]]
    ensures FlagStep(lives[|events|], v, lives'[|lives|])
  {
    LifeIsSound(lives, events, |events|);
    Longer(lives, events, v);
    EventFlags(lives[|events|], v);
    lives' := lives + [Apply(lives[|events|], v)];
  }

  /** The first `n` ticks of 10 ms after time `t`. */
  function TickRun(t: int, n: nat): (events: seq<Event>)
    ensures |events| == n
  {
    if n == 0 then [] else TickRun(t, n - 1) + [Tick(t + 10 * n, 10 * K * K)]
  }

  /** It is dispatched at `t` and ticks eleven times, which is the longest slice. */
  function SliceEvents(t: int): seq<Event> {
    [SetNext(t)] + TickRun(t, 11)
  }

  /** Then it blocks, wakes 10 ms later and is dispatched again. */
  function StaleEvents(t: int): seq<Event> {
    SliceEvents(t) + [PutPrev(t + 110, false)] + [Wake(t + 120), SetNext(t + 120)]
  }

  lemma {:induction false} RunsTicks(lives: seq<Life>, events: seq<Event>, t: int, n: nat) returns (lives': seq<Life>)
    requires IsLife(lives, events)
    requires var l := lives[|events|]; l.dispatched && l.e.runtime == 0 && l.e.used == 0 && l.now == l.e.latest == t
    ensures IsLife(lives', events + TickRun(t, n))
    ensures var l := lives'[|events| + n];
      && l.dispatched && l.e.runtime == n * (10 * K * K) && l.e.used == 0 && l.now == t + 10 * n && l.e.latest == t
      && (n >= 11 ==> l.e.expired)
  {
    if n == 0 {
      assert events + TickRun(t, 0) == events;
      lives' := lives;
    } else {
      lives' := RunsTicks(lives, events, t, n - 1);
      lives' := Next(lives', events + TickRun(t, n - 1), Tick(t + 10 * n, 10 * K * K));
      assert events + TickRun(t, n) == events + TickRun(t, n - 1) + [Tick(t + 10 * n, 10 * K * K)];
    }
  }

  lemma UsesUpSlice(e: Ent, t: int, sec: int) returns (lives: seq<Life>)
    requires Admissible(e)
    ensures IsLife(lives, SliceEvents(t))
    ensures var l := lives[12]; l.dispatched && l.e.expired && l.e.used == 0 && l.now == t + 110 && l.e.latest == t
  {
    StartedInRange(e, t, sec);
    lives := [Born(e, t, sec)];
    assert Begins(lives[0]) && IsLife(lives, []);
    lives := Next(lives, [], SetNext(t));
    assert [] + [SetNext(t)] == [SetNext(t)];
    lives := RunsTicks(lives, [SetNext(t)], t, 11);
  }

  lemma WakesAgain(lives: seq<Life>, events: seq<Event>, t: int) returns (lives': seq<Life>)
    requires IsLife(lives, events) && var l := lives[|events|]; !l.dispatched && l.e.expired && l.e.used == 110 && l.now <= t
    ensures IsLife(lives', events + [Wake(t), SetNext(t)])
    ensures var l := lives'[|events| + 2]; l.dispatched && l.e.runtime == 0 && l.e.expired && l.e.used == 110 && l.now == l.e.latest == t
  {
    lives' := Next(lives, events, Wake(t));
    lives' := Next(lives', events + [Wake(t)], SetNext(t));
    assert events + [Wake(t)] + [SetNext(t)] == events + [Wake(t), SetNext(t)];
  }

  /** Whatever task it is: in the second dispatch it is flagged without a tick. */
  lemma StaleFlag(e: Ent, t: int, sec: int) returns (lives: seq<Life>)
    requires Admissible(e)
    ensures IsLife(lives, StaleEvents(t)) && Dispatch(StaleEvents(t), 14, 15)
    ensures var l := lives[15]; l.dispatched && l.e.runtime == 0 && l.e.expired && l.e.used == 110 && l.now == l.e.latest == t + 120
  {
    lives := UsesUpSlice(e, t, sec);
    lives := Next(lives, SliceEvents(t), PutPrev(t + 110, false));
    lives := WakesAgain(lives, SliceEvents(t) + [PutPrev(t + 110, false)], t + 120);
  }

  /** A flagged task that has used 100 ms is down to at most 10 when it is preempted. */
  lemma FlaggedPut(l: Life, now: int)
    requires LifeInv(l) && l.dispatched && l.e.expired && l.now <= now && Accounted(l.e, now).used >= 100
    ensures Apply(l, PutPrev(now, true)).e.value <= 10
  {
    TotalFits(l.busy, l.e.first, l.e.latest);
    DecayedInRange(Accounted(l.e, now));
    EnteringInRange(Decayed(Accounted(l.e, now)));
  }

  /** Preempted a millisecond later, it is down to at most 10 without having used its slice. */
  lemma StaleFlagDecays(e: Ent, t: int, sec: int) returns (lives: seq<Life>)
    requires Admissible(e)
    ensures IsLife(lives, StaleEvents(t) + [PutPrev(t + 121, true)])
    ensures lives[15].e.runtime == 0 && lives[16].e.value <= 10
  {
    lives := StaleFlag(e, t, sec);
    LifeIsSound(lives, StaleEvents(t), 15);
    FlaggedPut(lives[15], t + 121);
    Longer(lives, StaleEvents(t), PutPrev(t + 121, true));
    lives := lives + [Apply(lives[15], PutPrev(t + 121, true))];
  }
}
