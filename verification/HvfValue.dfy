/**
 The arithmetic of the Highest-Value-First class: the initial value interpolated between two
 deadlines, its decay, the time slice, and the score system call. Times are in milliseconds,
 deadlines in seconds. C's truncating division is written out; 64-bit ranges are stated apart.
 */
module HvfValue {
  import opened Basics

  const K: int := 1000
  const H: int := 100
  const TWO63: int := 0x8000_0000_0000_0000

  function TruncDiv(a: int, b: int): int
    requires b > 0
  {
    if a >= 0 then a / b else -((-a) / b)
  }

  /** Wall-clock time in milliseconds. */
  function Millis(sec: int, nsec: nat): int {
    sec * K + nsec / (K * K)
  }

  /** Later clock readings give later milliseconds. */
  lemma MillisMonotone(sec: int, nsec: nat, sec': int, nsec': nat)
    requires nsec < 1_000_000_000 && nsec' < 1_000_000_000
    requires sec < sec' || (sec == sec' && nsec <= nsec')
    ensures Millis(sec, nsec) <= Millis(sec', nsec')
  {
  }

  /** The millisecond count of a clock reading: the last full millisecond. */
  lemma MillisExact(sec: int, nsec: nat)
    ensures Millis(sec, nsec) * 1_000_000 <= sec * 1_000_000_000 + nsec < (Millis(sec, nsec) + 1) * 1_000_000
  {
    DivBounds(nsec, K * K);
  }

  // ---- The initial value.

  /** compute_init_sched_value for a predicted finish at `x` ms and deadlines `d1`, `d2` s. */
  function InitValue(x: int, d1: int, d2: int): int
    requires d1 < d2
  {
    if x < d1 * K then H else if d2 * K < x then 0 else TruncDiv((d2 * K - x) * H, (d2 - d1) * K)
  }

  /** get_scheduling_score at second `now`. */
  function Score(now: int, d1: int, d2: int): int
    requires d1 < d2
  {
    if now < d1 then H else if d2 < now then 0 else TruncDiv((d2 - now) * 100, d2 - d1)
  }

  /** Inside the deadlines the quotient is the floor of the interpolation between 100 and 0. */
  lemma InitValueInterpolates(x: int, d1: int, d2: int)
    requires d1 < d2 && d1 * K <= x <= d2 * K
    ensures var v := InitValue(x, d1, d2); var w := (d2 - d1) * K;
      0 <= v <= H && v * w <= (d2 * K - x) * H < (v + 1) * w
  {
    var n, w := (d2 * K - x) * H, (d2 - d1) * K;
    assert 0 <= n <= w * H;
    DivMonotone(0, n, w);
    DivMonotone(n, w * H, w);
    DivUnique(w * H, w, H);
    assert n / w * w <= n < (n / w + 1) * w;
  }

  /** The value is in 0..100, is 100 before the first and 0 after the second deadline. */
  lemma InitValueClamped(x: int, d1: int, d2: int)
    requires d1 < d2
    ensures 0 <= InitValue(x, d1, d2) <= H
    ensures x <= d1 * K ==> InitValue(x, d1, d2) == H
    ensures x >= d2 * K ==> InitValue(x, d1, d2) == 0
  {
    if d1 * K <= x <= d2 * K { InitValueInterpolates(x, d1, d2); }
    if x == d1 * K { DivUnique((d2 * K - x) * H, (d2 - d1) * K, H); }
    if x == d2 * K { DivUnique(0, (d2 - d1) * K, 0); }
  }

  /** A later predicted finish never raises the value. */
  lemma InitValueMonotone(x: int, y: int, d1: int, d2: int)
    requires d1 < d2 && x <= y
    ensures InitValue(y, d1, d2) <= InitValue(x, d1, d2)
  {
    InitValueClamped(x, d1, d2);
    InitValueClamped(y, d1, d2);
    if d1 * K <= x && y <= d2 * K {
      DivMonotone((d2 * K - y) * H, (d2 * K - x) * H, (d2 - d1) * K);
    }
  }

  /** At whole seconds the value is the score. */
  lemma ScoreIsInitValue(now: int, d1: int, d2: int)
    requires d1 < d2
    ensures InitValue(now * K, d1, d2) == Score(now, d1, d2)
  {
    if d1 <= now <= d2 {
      var n, w := (d2 - now) * 100, d2 - d1;
      var q := n / w;
      assert q * w <= n < (q + 1) * w;
      assert (d2 * K - now * K) * H == n * K && q * (w * K) == (q * w) * K && (q + 1) * (w * K) == ((q + 1) * w) * K;
      DivUnique(n * K, w * K, q);
    }
  }

  /** Between whole seconds the value lies between the scores at the neighbouring seconds. */
  lemma ScoreBracketsInitValue(x: int, now: int, d1: int, d2: int)
    requires d1 < d2 && now * K <= x <= (now + 1) * K
    ensures Score(now + 1, d1, d2) <= InitValue(x, d1, d2) <= Score(now, d1, d2)
  {
    InitValueMonotone(now * K, x, d1, d2);
    InitValueMonotone(x, (now + 1) * K, d1, d2);
    ScoreIsInitValue(now, d1, d2);
    ScoreIsInitValue(now + 1, d1, d2);
  }

  /** set_scheduling_params: the admission test at second `now`. */
  predicate Admitted(d1: int, d2: int, ctime: int, now: int) {
    d1 > 0 && d2 > 0 && d1 < d2 && now * K + ctime < d2 * K
  }

  /** The intended test: a finish before the second deadline, so a positive value up to truncation. */
  lemma AdmittedMeansBeforeDeadline(d1: int, d2: int, ctime: int, now: int)
    requires d1 > 0 && d1 < d2
    ensures !Admitted(d1, d2, ctime, now) <==> now * K + ctime >= d2 * K
    ensures !Admitted(d1, d2, ctime, now) ==> InitValue(now * K + ctime, d1, d2) == 0
    ensures Admitted(d1, d2, ctime, now) && (d2 * K - (now * K + ctime)) * H >= (d2 - d1) * K ==> InitValue(now * K + ctime, d1, d2) >= 1
  {
    var x := now * K + ctime;
    InitValueClamped(x, d1, d2);
    if d1 * K <= x < d2 * K && (d2 * K - x) * H >= (d2 - d1) * K {
      InitValueInterpolates(x, d1, d2);
      var v, w := InitValue(x, d1, d2), (d2 - d1) * K;
      if v < 1 { MulMonotone(v + 1, 1, w); }
    }
  }

  // ---- The admission test as written, with sums and products wrapped to 64 bits.

  const TWO64: int := 0x1_0000_0000_0000_0000

  function ToS64(x: int): int {
    var u := x % TWO64;
    if u < TWO63 then u else u - TWO64
  }

  /** How often `x` went around. */
  function Laps(x: int): int {
    (x + TWO63) / TWO64
  }

  lemma ToS64Laps(x: int)
    ensures x == Laps(x) * TWO64 + ToS64(x) && -TWO63 <= ToS64(x) < TWO63
  {
  }

  /** The condition of set_scheduling_params. */
  predicate AdmittedAsWritten(d1: int, d2: int, ctime: int, sec: int) {
    d1 > 0 && d2 > 0 && d1 < d2 && ToS64(ToS64(sec * K) + ctime) < ToS64(d2 * K)
  }

  /** Deadlines that are not positive and ordered are refused; for the others, with nothing wrapping, the finish decides. */
  lemma AdmissionDecides(d1: int, d2: int, ctime: int, sec: int)
    ensures d1 <= 0 || d2 <= d1 ==> !AdmittedAsWritten(d1, d2, ctime, sec) && !Admitted(d1, d2, ctime, sec)
    ensures 0 < d1 < d2 && d2 * 1000 < TWO63 && 0 <= sec && -TWO63 <= ctime && sec * 1000 + ctime < TWO63 ==>
      (AdmittedAsWritten(d1, d2, ctime, sec) <==> sec * 1000 + ctime < d2 * 1000)
  {
    if 0 < d1 < d2 && d2 * 1000 < TWO63 && 0 <= sec && -TWO63 <= ctime && sec * 1000 + ctime < TWO63 {
      WrapTwice(sec * K, ctime);
    }
  }

  lemma WrapTwice(a: int, b: int)
    ensures ToS64(ToS64(a) + b) == ToS64(a + b)
  {
    ToS64Laps(a);
    ToS64Laps(a + b);
    ToS64Laps(ToS64(a) + b);
    var n := Laps(a) + Laps(ToS64(a) + b) - Laps(a + b);
    assert n * TWO64 == ToS64(a + b) - ToS64(ToS64(a) + b);
  }

  /** A huge computation time makes the predicted finish negative, and is accepted. */
  lemma HugeTimeIsAdmitted()
    ensures AdmittedAsWritten(1, 2, TWO63 - 1, 1) && !Admitted(1, 2, TWO63 - 1, 1)
  {
  }

  /** The test as written is the intended one iff both sides went around equally often, or the wrapped sides compare like the laps. */
  lemma AdmissionIsExactIff(d1: int, d2: int, ctime: int, sec: int)
    requires 0 < d1 < d2
    ensures var finish, limit := sec * K + ctime, d2 * K;
      (AdmittedAsWritten(d1, d2, ctime, sec) <==> Admitted(d1, d2, ctime, sec)) <==>
        (Laps(finish) == Laps(limit) || (Laps(finish) < Laps(limit) <==> ToS64(finish) < ToS64(limit)))
  {
    var finish, limit := sec * K + ctime, d2 * K;
    WrapTwice(sec * K, ctime);
    LapsDecide(finish, limit);
  }

  lemma LapsDecide(x: int, y: int)
    ensures Laps(x) == Laps(y) ==> (x < y <==> ToS64(x) < ToS64(y))
    ensures Laps(x) != Laps(y) ==> (x < y <==> Laps(x) < Laps(y))
  {
    ToS64Laps(x);
    ToS64Laps(y);
  }

  /** For every clock and every deadline in range: iff the predicted finish is below 2^63 ms. */
  lemma AdmissionInRangeIff(d1: int, d2: int, ctime: int, sec: int)
    requires 0 < d1 < d2 && d2 * K < TWO63 && 0 <= sec && sec * K < TWO63 && -TWO63 <= ctime < TWO63
    ensures (AdmittedAsWritten(d1, d2, ctime, sec) <==> Admitted(d1, d2, ctime, sec)) <==> sec * K + ctime < TWO63
  {
    AdmissionIsExactIff(d1, d2, ctime, sec);
  }

  /** For deadlines beyond: iff the predicted finish, less a lap if it made one, is below the wrapped deadline, or both made one lap. */
  lemma AdmissionBeyondIff(d1: int, d2: int, ctime: int, sec: int)
    requires 0 < d1 < d2 && TWO63 <= d2 * K && 0 <= sec && sec * K < TWO63 && -TWO63 <= ctime < TWO63
    ensures var finish, limit := sec * K + ctime, d2 * K;
      (AdmittedAsWritten(d1, d2, ctime, sec) <==> Admitted(d1, d2, ctime, sec)) <==>
        if finish < TWO63 then finish < ToS64(limit) else limit < 3 * TWO63 || finish - TWO64 < ToS64(limit)
  {
    AdmissionIsExactIff(d1, d2, ctime, sec);
    ToS64Laps(d2 * K);
    ToS64Laps(sec * K + ctime);
  }

  // ---- Decay.

  function Floored(value: int, before: int): int {
    if value > 0 then value else if before == 0 then 10 else 0
  }

  /** reduce_sched_value */
  function Reduced(used: int, v: int): int {
    Floored(v - TruncDiv(used * v, 100), v)
  }

  /** penalty_hvf_entity */
  function Penalized(used: int, ctime: int, v: int): int {
    Floored(v - TruncDiv((used - ctime) * (used - ctime) * v, 100), v)
  }

  /** Decay keeps the range 0..100 and never raises a value above 10 that was not above it. */
  lemma DecayInRange(rate: int, v: int)
    requires rate >= 0 && 0 <= v <= H
    ensures var w := Floored(v - TruncDiv(rate * v, 100), v);
      LeftOver(v, rate, w) && 0 <= w <= H && (w <= v || w == 10) && (v <= 10 ==> w <= 10)
  {
    assert rate * v >= 0;
    FlooredExact(rate, v);
  }

  /** `r` is what is left of `v` after taking away `rate` percent, rounded up; nothing turns into 10. */
  predicate LeftOver(v: int, rate: int, r: int) {
    if v == 0 then r == 10
    else if rate >= 100 then r == 0
    else 100 * (r - 1) < v * (100 - rate) <= 100 * r
  }

  lemma FlooredExact(rate: int, v: int)
    requires rate >= 0 && 0 <= v <= H
    ensures LeftOver(v, rate, Floored(v - TruncDiv(rate * v, 100), v))
  {
    var q := rate * v / 100;
    DivBounds(rate * v, 100);
    if v > 0 && rate >= 100 {
      MulMonotone(100, rate, v);
      DivMonotone(100 * v, rate * v, 100);
      DivUnique(100 * v, 100, v);
    }
    if v > 0 && rate < 100 {
      MulMonotone(rate, 99, v);
      assert v * (100 - rate) == 100 * v - rate * v;
    }
  }

  /** A decay takes away as many percent as milliseconds were used. */
  lemma ReducedExact(used: int, v: int)
    requires used >= 0 && 0 <= v <= H
    ensures LeftOver(v, used, Reduced(used, v))
  {
    FlooredExact(used, v);
  }

  /** A penalty takes away as many percent as the square of the overrun. */
  lemma PenalizedExact(used: int, ctime: int, v: int)
    requires 0 <= v <= H
    ensures LeftOver(v, (used - ctime) * (used - ctime), Penalized(used, ctime, v))
  {
    Square(used - ctime);
    FlooredExact((used - ctime) * (used - ctime), v);
  }

  /** What is left over is determined. */
  lemma LeftOverUnique(v: int, rate: int, r: int, r': int)
    requires LeftOver(v, rate, r) && LeftOver(v, rate, r')
    ensures r == r'
  {
  }

  /** From 100 ms of use on, an expired slice leaves 0, or 10 where there was 0. */
  lemma ReducedToNothing(used: int, v: int)
    requires used >= 100 && 0 <= v <= H
    ensures Reduced(used, v) == if v == 0 then 10 else 0
  {
    MulMonotone(100, used, v);
    DivMonotone(100 * v, used * v, 100);
    DivUnique(100 * v, 100, v);
  }

  lemma PenalizedInRange(used: int, ctime: int, v: int)
    requires 0 <= v <= H
    ensures LeftOver(v, (used - ctime) * (used - ctime), Penalized(used, ctime, v))
    ensures 0 <= Penalized(used, ctime, v) <= H && (v <= 10 ==> Penalized(used, ctime, v) <= 10)
  {
    var d := used - ctime;
    Square(d);
    DecayInRange(d * d, v);
  }

  lemma Square(d: int)
    ensures d * d >= 0
  {
  }

  // ---- The time slice, in milliseconds.

  function TimeSlice(value: int): int {
    var v := if value < 1 then 1 else if value > K then K else value;
    TruncDiv(v * (K - 10), K) + 10
  }

  /** Slices are 10..109 ms for values in range, and a higher value never gets a shorter one. */
  lemma SliceInRange(v: int, w: int)
    requires 0 <= v <= w <= H
    ensures 10 <= TimeSlice(v) <= TimeSlice(w) <= 109
    ensures TimeSlice(v) == 9 + (if v < 1 then 1 else v)
  {
  }

  /** The slice in milliseconds: one more for each unit of value, from 10 for the values 0 and 1. */
  lemma SliceExact(v: int)
    requires 0 <= v <= H
    ensures TimeSlice(v) == 9 + (if v < 1 then 1 else v)
  {
  }

  /** The ticks have reached the slice: 9 ms and one more for each unit of value, at least 10 ms. */
  predicate SliceUsedUp(runtime: int, value: int) {
    runtime >= (9 + (if value < 1 then 1 else value)) * 1_000_000
  }

  lemma SliceUsedUpIff(runtime: int, v: int)
    requires 0 <= v <= H
    ensures SliceUsedUp(runtime, v) <==> runtime >= TimeSlice(v) * K * K
  {
    SliceExact(v);
  }

  // ---- 64-bit ranges.

  predicate Fits64(x: int) {
    -TWO63 <= x < TWO63
  }

  /** compute_init_sched_value: no intermediate leaves 64 bits for deadlines below 2^63 / 100000 s. */
  lemma InitValueFits(first: int, ctime: int, d1: int, d2: int)
    requires 0 < d1 < d2 && d2 * (K * H) < TWO63 && 0 <= first < TWO63 && -TWO63 <= ctime && first + ctime < TWO63
    ensures Fits64(first + ctime) && Fits64(d1 * K) && Fits64(d2 * K) && Fits64(d2 - d1) && Fits64((d2 - d1) * K)
    ensures d1 * K <= first + ctime <= d2 * K ==> Fits64(d2 * K - (first + ctime)) && Fits64((d2 * K - (first + ctime)) * H)
  {
  }

  /** penalty_hvf_entity: the product fits for every value in range exactly up to this overrun. */
  lemma PenaltyFits(diff: int)
    requires diff >= 0
    ensures (forall v :: 0 <= v <= H ==> Fits64(diff * diff * v)) <==> diff <= 303700049
  {
    if diff <= 303700049 {
      MulMonotone(diff, 303700049, diff);
      MulMonotone(diff, 303700049, 303700049);
      forall v | 0 <= v <= H ensures Fits64(diff * diff * v) {
        Square(diff);
        MulMonotone(v, H, diff * diff);
        MulMonotone(diff * diff, 303700049 * 303700049, H);
        assert 0 <= v * (diff * diff);
      }
    } else {
      MulMonotone(303700050, diff, diff);
      MulMonotone(303700050, diff, 303700050);
      MulMonotone(303700050 * 303700050, diff * diff, H);
      assert !Fits64(diff * diff * H);
    }
  }

  /** reduce_sched_value and task_tick_hvf. */
  lemma DecayAndTickFit(used: int, v: int)
    requires 0 <= v <= H && 0 <= used <= TWO63 / H - 1
    ensures Fits64(used * v) && Fits64(TimeSlice(v) * K * K)
  {
    MulMonotone(v, H, used);
    SliceInRange(v, v);
  }
}
