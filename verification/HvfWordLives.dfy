/**
 Lives as written: every event with its sums and products in 64-bit words. A life as written is a
 life of HvfEntity exactly when each event meets a condition on the entity it finds; then, and so
 long, values are in 0..100.
 */
module HvfWordLives {
  import opened Basics
  import opened HvfValue
  import opened HvfEntity
  import opened HvfWords

  const TWO31: int := 0x8000_0000
  const TWO32: int := 0x1_0000_0000

  function ToS32(x: int): int {
    var u := x % TWO32;
    if u < TWO31 then u else u - TWO32
  }

  // ---- The operations on the entity, as written.

  function WordDefaults(e: Ent, sec: int): Ent {
    if e.parsSet then e else e.(parsSet := true, d1 := ToS64(sec + 4), d2 := ToS64(sec + 6), ctime := K)
  }

  function WordComputed(e: Ent): Ent {
    var v := WordInit(e.first, e.ctime, e.d1, e.d2);
    e.(initValue := v, value := v)
  }

  function WordEntering(e: Ent): Ent {
    if e.used > e.ctime then e.(value := WordPenalized(e.used, e.ctime, e.value)) else e
  }

  function WordDispatched(e: Ent, now: int): Ent {
    var n := ToS32(e.answers + 1);
    e.(latest := now, runtime := 0, answers := n, firstAnswer := if n == 1 then now else e.firstAnswer)
  }

  function WordAccounted(e: Ent, now: int): Ent {
    e.(used := ToS64(e.used + ToS64(now - e.latest)))
  }

  function WordDecayed(e: Ent): Ent {
    if e.expired then e.(value := WordReduced(e.used, e.value), expired := false) else e
  }

  /** The slice is clamped before it is multiplied, so only the sum can wrap. */
  function WordTicked(e: Ent, tick: int): Ent {
    var runtime := ToS64(e.runtime + tick);
    e.(runtime := runtime, expired := e.expired || runtime >= TimeSlice(e.value) * K * K)
  }

  function WordRestarted(e: Ent, now: int, sec: int): Ent {
    WordComputed(Initialized(WordDefaults(e, sec), now))
  }

  function WordStarted(e: Ent, now: int, sec: int): Ent {
    WordEntering(WordRestarted(e, now, sec))
  }

  function WordChanged(e: Ent, dispatched: bool, v: Event): Ent {
    match v
    case Start(now, sec) => if dispatched then WordRestarted(e, now, sec) else WordStarted(e, now, sec)
    case Wake(now) => if dispatched then WordComputed(e) else WordEntering(WordComputed(e))
    case Requeue(now) => WordEntering(e)
    case SetParams(now, d1, d2, c) => WithParams(e, d1, d2, c)
    case Pass(now) => e
    case SetNext(now) => WordDispatched(e, now)
    case Tick(now, nsec) => WordTicked(e, nsec)
    case PutPrev(now, runnable) => var a := WordAccounted(e, now); if runnable then WordEntering(WordDecayed(a)) else a
  }

  // ---- The condition.

  /** The last clock reading for which no time used leaves 64 bits when multiplied, in milliseconds. */
  const CLOCK: int := TWO63 / H - 10 * K

  predicate Clock(now: int) {
    0 <= now <= CLOCK
  }

  /** The clock at an event, and the second read before it. */
  predicate Timely(v: Event) {
    Clock(v.now) && (v.Start? ==> 0 <= v.sec && v.sec * K <= v.now)
  }

  /** Times and parameters as the code can hold them, with deadlines below 2^63 ms. */
  predicate Ranged(e: Ent) {
    0 <= e.first && Deadlines(e.d1, e.d2) && Fits64(e.ctime) && -TWO31 <= e.answers < TWO31
  }

  predicate InitialExact(e: Ent) {
    InitExact(e.first + e.ctime, e.d1, e.d2)
  }

  predicate PenaltyExact(e: Ent) {
    e.used > e.ctime ==> FallExact((e.used - e.ctime) * (e.used - e.ctime) * e.value, e.value)
  }

  predicate RestartExact(e: Ent, dispatched: bool)
    requires e.d1 < e.d2
  {
    InitialExact(e) && (!dispatched ==> PenaltyExact(Computed(e)))
  }

  /** What an event demands of the entity it finds. */
  predicate Exact(e: Ent, dispatched: bool, v: Event)
    requires e.parsSet && e.d1 < e.d2
  {
    match v
    case Start(now, sec) => RestartExact(Initialized(e, now), dispatched)
    case Wake(_) => RestartExact(e, dispatched)
    case Requeue(_) => PenaltyExact(e)
    case SetNext(_) => e.answers + 1 < TWO31
    case Tick(_, nsec) => Fits64(e.runtime + nsec)
    case PutPrev(now, runnable) => runnable ==> PenaltyExact(Decayed(Accounted(e, now)))
    case _ => true
  }

  // ---- One event.

  lemma ComputedIff(e: Ent)
    requires Ranged(e) && e.first <= CLOCK
    ensures WordComputed(e) == Computed(e) <==> InitialExact(e)
    ensures WordComputed(e).initValue == Computed(e).initValue <==> InitialExact(e)
  {
    InitExactIff(e.first, e.ctime, e.d1, e.d2);
  }

  lemma EnteringIff(e: Ent)
    requires 0 <= e.value <= H
    ensures WordEntering(e) == Entering(e) <==> PenaltyExact(e)
  {
    PenaltyExactIff(e.used, e.ctime, e.value);
  }

  lemma RestartIff(e: Ent, dispatched: bool)
    requires Ranged(e) && e.first <= CLOCK
    ensures (if dispatched then WordComputed(e) == Computed(e) else WordEntering(WordComputed(e)) == Entering(Computed(e)))
      <==> RestartExact(e, dispatched)
  {
    ComputedIff(e);
    InitValueClamped(e.first + e.ctime, e.d1, e.d2);
    EnteringIff(Computed(e));
    assert WordEntering(WordComputed(e)).initValue == WordComputed(e).initValue;
    assert Entering(Computed(e)).initValue == Computed(e).initValue;
  }

  /** The time used is conserved, so adding to it and multiplying it never wraps. */
  lemma UsedIsBounded(l: Life, now: int)
    requires LifeInv(l) && 0 <= l.e.first && l.now <= now
    ensures l.e.first <= l.now && 0 <= l.e.used <= now
    ensures l.dispatched ==> 0 <= l.e.latest <= now && 0 <= Accounted(l.e, now).used <= now
  {
    var hi := if l.dispatched then l.e.latest else l.now;
    TotalFits(l.busy, l.e.first, hi);
  }

  lemma AccountedExact(l: Life, now: int)
    requires LifeInv(l) && l.dispatched && 0 <= l.e.first && l.now <= now <= CLOCK
    ensures WordAccounted(l.e, now) == Accounted(l.e, now)
    ensures WordDecayed(Accounted(l.e, now)) == Decayed(Accounted(l.e, now))
  {
    UsedIsBounded(l, now);
    InWord(now - l.e.latest);
    InWord(l.e.used + (now - l.e.latest));
    var a := Accounted(l.e, now);
    WordDecayIs(a.used, 0, a.value);
    DecayAndTickFit(a.used, a.value);
    InWord(a.used * a.value);
  }

  lemma PutPrevIff(l: Life, now: int, runnable: bool)
    requires LifeInv(l) && l.dispatched && 0 <= l.e.first && l.now <= now <= CLOCK
    ensures var v := PutPrev(now, runnable); WordChanged(l.e, true, v) == Changed(l.e, true, v) <==> Exact(l.e, true, v)
  {
    AccountedExact(l, now);
    UsedIsBounded(l, now);
    DecayedInRange(Accounted(l.e, now));
    EnteringIff(Decayed(Accounted(l.e, now)));
  }

  lemma CountersIff(e: Ent, now: int, nsec: int)
    requires Ranged(e)
    ensures WordDispatched(e, now) == Dispatched(e, now) <==> e.answers + 1 < TWO31
    ensures WordTicked(e, nsec) == Ticked(e, nsec) <==> Fits64(e.runtime + nsec)
  {
    if Fits64(e.runtime + nsec) { InWord(e.runtime + nsec); } else { ToS64Laps(e.runtime + nsec); }
  }

  /** One event, as written, does to an entity what is intended exactly under the condition. */
  lemma ChangedIff(l: Life, v: Event)
    requires LifeInv(l) && Enabled(l, v) && Ranged(l.e) && Timely(v)
    ensures WordChanged(l.e, l.dispatched, v) == Changed(l.e, l.dispatched, v) <==> Exact(l.e, l.dispatched, v)
  {
    UsedIsBounded(l, v.now);
    match v
    case Start(now, sec) => RestartIff(Initialized(l.e, now), l.dispatched);
    case Wake(_) => RestartIff(l.e, l.dispatched);
    case Requeue(_) => EnteringIff(l.e);
    case SetNext(now) => CountersIff(l.e, now, 0);
    case Tick(now, nsec) => CountersIff(l.e, now, nsec);
    case PutPrev(now, runnable) => PutPrevIff(l, now, runnable);
    case _ =>
  }

  /** The parameters the first enqueue works with. */
  function AtBirth(e: Ent, now: int, sec: int): Ent {
    Initialized(WithDefaults(e, sec), now)
  }

  predicate BirthExact(e: Ent, now: int, sec: int)
    requires Admissible(e)
  {
    RestartExact(AtBirth(e, now, sec), false)
  }

  lemma BirthIff(e: Ent, now: int, sec: int)
    requires Admissible(e) && Timely(Start(now, sec)) && Ranged(AtBirth(e, now, sec))
    ensures WordStarted(e, now, sec) == Started(e, now, sec) <==> BirthExact(e, now, sec)
  {
    InWord(sec + 4);
    InWord(sec + 6);
    RestartIff(AtBirth(e, now, sec), false);
  }

  // ---- Two first enqueues that leave the range.

  /** With a far second deadline the first value is -84 instead of 99. */
  lemma FarDeadlineLeavesRange(e: Ent)
    requires e.parsSet && e.d1 == 1 && e.d2 == 100_000_000_000_000 && e.ctime == 1000
    ensures WordStarted(e, 1_700_000_000_000, 1_700_000_000).value == -84 && Started(e, 1_700_000_000_000, 1_700_000_000).value == 99
  {
    FarDeadlineWraps();
  }

  /** With a negative computation time it is above 10^12 instead of 0. */
  lemma NegativeTimeLeavesRange(e: Ent, sec: int)
    requires 0 <= sec && (sec + 20) * K < TWO63
    requires e.parsSet && e.d1 == sec + 10 && e.d2 == sec + 20 && e.ctime == -303700050
    ensures WordStarted(e, sec * K, sec).value > 1_000_000_000_000 && Started(e, sec * K, sec).value == 0
  {
    NegativeTimeWraps(sec);
    var i := Initialized(e, sec * K);
    assert WordComputed(i).value == H == Computed(i).value;
  }

  // ---- Lives as written.

  predicate WordFollows(l: Life, v: Event, l': Life) {
    l.e.parsSet && l.e.d1 < l.e.d2 && Enabled(l, v) && l' == Apply(l, v).(e := WordChanged(l.e, l.dispatched, v))
  }

  predicate WordFollowsAt(lives: seq<Life>, events: seq<Event>, i: nat) {
    i < |events| && |lives| == |events| + 1 && WordFollows(lives[i], events[i], lives[i + 1])
  }

  /** Its first enqueue, of `e` at time `now`, and every event since are as written. */
  predicate IsWordLife(lives: seq<Life>, events: seq<Event>, e: Ent, now: int, sec: int) {
    && |lives| == |events| + 1 && Admissible(e) && lives[0] == Life(WordStarted(e, now, sec), false, now, [], false)
    && forall i: nat :: i < |events| ==> WordFollowsAt(lives, events, i)
  }

  predicate RangedAt(lives: seq<Life>, events: seq<Event>, i: nat) {
    i < |lives| && Ranged(lives[i].e) && (i < |events| ==> Timely(events[i]))
  }

  predicate IsRanged(lives: seq<Life>, events: seq<Event>, e: Ent, now: int, sec: int) {
    && Timely(Start(now, sec)) && Ranged(AtBirth(e, now, sec))
    && forall i: nat :: i < |lives| ==> RangedAt(lives, events, i)
  }

  predicate ExactAt(lives: seq<Life>, events: seq<Event>, i: nat) {
    i < |events| < |lives| && var l := lives[i]; l.e.parsSet && l.e.d1 < l.e.d2 && Exact(l.e, l.dispatched, events[i])
  }

  predicate AllExact(lives: seq<Life>, events: seq<Event>, e: Ent, now: int, sec: int) {
    Admissible(e) && BirthExact(e, now, sec) && forall i: nat :: i < |events| ==> ExactAt(lives, events, i)
  }

  lemma {:induction false} ExactIsSound(lives: seq<Life>, events: seq<Event>, e: Ent, now: int, sec: int, i: nat)
    requires IsWordLife(lives, events, e, now, sec) && IsRanged(lives, events, e, now, sec) && AllExact(lives, events, e, now, sec) && i < |lives|
    ensures LifeInv(lives[i])
    ensures i == 0 ==> lives[0] == Born(e, now, sec)
    ensures i > 0 ==> FollowsAt(lives, events, i - 1)
  {
    if i == 0 {
      BirthIff(e, now, sec);
      StartedInRange(e, now, sec);
    } else {
      ExactIsSound(lives, events, e, now, sec, i - 1);
      assert WordFollowsAt(lives, events, i - 1) && RangedAt(lives, events, i - 1) && ExactAt(lives, events, i - 1);
      ChangedIff(lives[i - 1], events[i - 1]);
      EventKeeps(lives[i - 1], events[i - 1]);
    }
  }

  /** A life as written is as intended from its first enqueue on exactly when every event meets its condition. */
  lemma WordLifeIff(lives: seq<Life>, events: seq<Event>, e: Ent, now: int, sec: int)
    requires IsWordLife(lives, events, e, now, sec) && IsRanged(lives, events, e, now, sec)
    ensures IsLife(lives, events) && lives[0] == Born(e, now, sec) <==> AllExact(lives, events, e, now, sec)
  {
    BirthIff(e, now, sec);
    if AllExact(lives, events, e, now, sec) {
      ExactIsSound(lives, events, e, now, sec, 0);
      assert Begins(lives[0]);
      forall i: nat | i < |events| ensures FollowsAt(lives, events, i) { ExactIsSound(lives, events, e, now, sec, i + 1); }
    }
    if IsLife(lives, events) && lives[0] == Born(e, now, sec) {
      forall i: nat | i < |events| ensures ExactAt(lives, events, i) {
        LifeStep(lives, events, i);
        assert WordFollowsAt(lives, events, i) && RangedAt(lives, events, i);
        ChangedIff(lives[i], events[i]);
      }
    }
  }

  /** Under the condition, in every state of a life as written, the value is in 0..100 and the slice in 10..109 ms. */
  lemma WordValuesInRange(lives: seq<Life>, events: seq<Event>, e: Ent, now: int, sec: int, i: nat)
    requires IsWordLife(lives, events, e, now, sec) && IsRanged(lives, events, e, now, sec) && AllExact(lives, events, e, now, sec) && i < |lives|
    ensures 0 <= lives[i].e.value <= H && 10 <= TimeSlice(lives[i].e.value) <= 109
    ensures 0 <= lives[i].e.used <= lives[i].now - lives[i].e.first
  {
    WordLifeIff(lives, events, e, now, sec);
    ValuesStayInRange(lives, events, i);
    TimeIsConserved(lives, events, i);
    TotalFits(lives[i].busy, lives[i].e.first, lives[i].now);
  }
}
