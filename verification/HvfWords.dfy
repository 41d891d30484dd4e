/**
 The value arithmetic as written, in 64-bit words that wrap around, and exactly when it computes the
 intended values of HvfValue. It does not always: the system call accepts parameters whose products
 wrap, and then the value leaves 0..100.
 */
module HvfWords {
  import opened Basics
  import opened HvfValue

  /** C division. A zero divisor traps; only deadlines of 2^63 ms or more can lead to one. */
  function Quot(a: int, b: int): int {
    if b > 0 then TruncDiv(a, b) else if b < 0 then -TruncDiv(a, -b) else 0
  }

  /** compute_init_sched_value, with every sum and product wrapped */
  function WordInit(first: int, ctime: int, d1: int, d2: int): int {
    var x := ToS64(first + ctime);
    if x < ToS64(d1 * K) then H
    else if ToS64(d2 * K) < x then 0
    else Quot(ToS64(ToS64(ToS64(d2 * K) - x) * H), ToS64(ToS64(d2 - d1) * K))
  }

  /** get_scheduling_score */
  function WordScore(now: int, d1: int, d2: int): int {
    if now < d1 then H else if d2 < now then 0 else Quot(ToS64(ToS64(d2 - now) * 100), ToS64(d2 - d1))
  }

  /** reduce_sched_value */
  function WordReduced(used: int, v: int): int {
    Floored(ToS64(v - TruncDiv(ToS64(used * v), 100)), v)
  }

  /** penalty_hvf_entity */
  function WordPenalized(used: int, ctime: int, v: int): int {
    var diff := ToS64(used - ctime);
    Floored(ToS64(v - TruncDiv(ToS64(ToS64(diff * diff) * v), 100)), v)
  }

  // ---- Wrapping.

  lemma InWord(x: int)
    requires Fits64(x)
    ensures ToS64(x) == x
  {
  }

  lemma WrapLaps(x: int, n: int)
    ensures ToS64(n * TWO64 + x) == ToS64(x)
  {
    WrapTwice(n * TWO64, x);
  }

  /** Wrapping before a multiplication does not matter. */
  lemma WrapProduct(a: int, b: int)
    ensures ToS64(ToS64(a) * b) == ToS64(a * b)
  {
    ToS64Laps(a);
    var n := Laps(a) * b;
    assert a * b == n * TWO64 + ToS64(a) * b;
    WrapLaps(ToS64(a) * b, n);
  }

  // ---- The initial value.

  /** The deadlines of a task, below 2^63 in milliseconds. */
  predicate Deadlines(d1: int, d2: int) {
    0 < d1 < d2 && d2 * K < TWO63
  }

  /** The condition on the parameters under which no product matters that wraps. */
  predicate InitExact(x: int, d1: int, d2: int) {
    x < TWO63 && (d1 * K <= x <= d2 * K ==> (d2 * K - x) * H < TWO63)
  }

  /** What is left of the wrapping for deadlines in range. */
  lemma WordInitIs(first: int, ctime: int, d1: int, d2: int)
    requires Deadlines(d1, d2) && 0 <= first < TWO63 && Fits64(ctime)
    ensures var x := first + ctime;
      WordInit(first, ctime, d1, d2) ==
        if x >= TWO63 || x < d1 * K then H
        else if d2 * K < x then 0
        else TruncDiv(ToS64((d2 * K - x) * H), (d2 - d1) * K)
  {
    InWord(d1 * K);
    InWord(d2 * K);
    InWord(d2 - d1);
    InWord((d2 - d1) * K);
    var x := first + ctime;
    if x >= TWO63 { WrapLaps(x - TWO64, 1); InWord(x - TWO64); } else { InWord(x); }
    if d1 * K <= x <= d2 * K { InWord(d2 * K - x); }
  }

  /** A quotient of a wrapped number is not the quotient of the number. */
  lemma WrappedQuotient(p: int, w: int)
    requires 0 <= p && 0 < w < TWO63
    ensures TruncDiv(ToS64(p), w) == TruncDiv(p, w) <==> p < TWO63
  {
    if p < TWO63 {
      InWord(p);
    } else {
      ToS64Laps(p);
      var s := ToS64(p);
      assert Laps(p) >= 1;
      assert p >= s + TWO64;
      DivMonotone(s + 2 * w, p, w);
      DivShift(s, w, 2);
      TruncBelow(s, w);
    }
  }

  lemma DivShift(a: int, w: int, n: int)
    requires w > 0
    ensures (a + n * w) / w == a / w + n
  {
    DivBounds(a, w);
    DivUnique(a + n * w, w, a / w + n);
  }

  lemma TruncBelow(a: int, w: int)
    requires w > 0
    ensures TruncDiv(a, w) <= a / w + 1
  {
    DivBounds(a, w);
    if a < 0 {
      DivBounds(-a, w);
      var q := (-a) / w;
      assert q * w <= -a;
      if -q > a / w + 1 { MulMonotone(a / w + 2, -q, w); }
    }
  }

  /** For deadlines in range, the initial value as written is the intended one exactly under this condition. */
  lemma InitExactIff(first: int, ctime: int, d1: int, d2: int)
    requires Deadlines(d1, d2) && 0 <= first < TWO63 && Fits64(ctime)
    ensures WordInit(first, ctime, d1, d2) == InitValue(first + ctime, d1, d2) <==> InitExact(first + ctime, d1, d2)
  {
    WordInitIs(first, ctime, d1, d2);
    var x := first + ctime;
    if d1 * K <= x <= d2 * K { WrappedQuotient((d2 * K - x) * H, (d2 - d1) * K); }
  }

  /** It is in 0..100 exactly when the wrapped product, if it matters, is. */
  lemma InitInRangeIff(first: int, ctime: int, d1: int, d2: int)
    requires Deadlines(d1, d2) && 0 <= first < TWO63 && Fits64(ctime)
    ensures var x, w := first + ctime, (d2 - d1) * K;
      0 <= WordInit(first, ctime, d1, d2) <= H <==>
        (d1 * K <= x <= d2 * K ==> -w < ToS64((d2 * K - x) * H) < 101 * w)
  {
    WordInitIs(first, ctime, d1, d2);
    var x, w := first + ctime, (d2 - d1) * K;
    if d1 * K <= x <= d2 * K { TruncInRange(ToS64((d2 * K - x) * H), w, H); }
  }

  lemma TruncInRange(a: int, w: int, n: nat)
    requires w > 0
    ensures 0 <= TruncDiv(a, w) <= n <==> -w < a < (n + 1) * w
  {
    if a >= 0 {
      DivBounds(a, w);
      if a / w <= n { MulMonotone(a / w + 1, n + 1, w); } else { MulMonotone(n + 1, a / w, w); }
    } else {
      DivBounds(-a, w);
      if (-a) / w >= 1 { MulMonotone(1, (-a) / w, w); }
    }
  }

  /** The score as written is the intended one exactly when its product fits. */
  lemma WordScoreIff(now: int, d1: int, d2: int)
    requires 0 < d1 < d2 < TWO63 && 0 <= now < TWO63
    ensures WordScore(now, d1, d2) == Score(now, d1, d2) <==> (d1 <= now <= d2 ==> (d2 - now) * 100 < TWO63)
  {
    if d1 <= now <= d2 {
      InWord(d2 - now);
      InWord(d2 - d1);
      WrappedQuotient((d2 - now) * 100, d2 - d1);
    }
  }

  /** So for deadlines in range it is the value as written at whole seconds exactly when the value's product fits. */
  lemma ScoreIsWordInitIff(now: int, d1: int, d2: int)
    requires Deadlines(d1, d2) && 0 <= now && now * K < TWO63
    ensures WordInit(now * K, 0, d1, d2) == WordScore(now, d1, d2) <==> InitExact(now * K, d1, d2)
  {
    WordScoreIff(now, d1, d2);
    ScoreIsInitValue(now, d1, d2);
    InitExactIff(now * K, 0, d1, d2);
  }

  lemma FarProduct(p: int, w: int)
    requires p == 9_999_829_999_999_900_000 && w == 99_999_999_999_999_000
    ensures TruncDiv(ToS64(p), w) == -84 && TruncDiv(p, w) == 99
  {
    assert ToS64(p) == p - TWO64;
    DivUnique(TWO64 - p, w, 84);
    DivUnique(p, w, 99);
  }

  /** A far second deadline: the product wraps, and the first value is -84. The score is still 99. */
  lemma FarDeadlineWraps()
    ensures AdmittedAsWritten(1, 100_000_000_000_000, 1000, 1_700_000_000)
    ensures WordInit(1_700_000_000_000, 1000, 1, 100_000_000_000_000) == -84
    ensures InitValue(1_700_000_001_000, 1, 100_000_000_000_000) == 99
    ensures WordScore(1_700_000_000, 1, 100_000_000_000_000) == 99
  {
    var now, first, ctime, d2 := 1_700_000_000, 1_700_000_000_000, 1000, 100_000_000_000_000;
    WordInitIs(first, ctime, 1, d2);
    FarProduct((d2 * K - (first + ctime)) * H, (d2 - 1) * K);
    WordScoreIff(now, 1, d2);
    DivUnique((d2 - now) * 100, d2 - 1, 99);
  }

  // ---- Decay.

  /** Decay by a wrapped product: what the code computes for both kinds. */
  function Fallen(p: int, v: int): int {
    Floored(v - TruncDiv(ToS64(p), 100), v)
  }

  lemma WordDecayIs(used: int, ctime: int, v: int)
    requires 0 <= v <= H
    ensures WordReduced(used, v) == Fallen(used * v, v)
    ensures WordPenalized(used, ctime, v) == Fallen((used - ctime) * (used - ctime) * v, v)
  {
    SquareWraps(used - ctime, v);
    HundredthFits(ToS64(used * v), v);
    HundredthFits(ToS64((used - ctime) * (used - ctime) * v), v);
  }

  lemma SquareWraps(diff: int, v: int)
    ensures ToS64(ToS64(ToS64(diff) * ToS64(diff)) * v) == ToS64(diff * diff * v)
  {
    WrapProduct(diff, ToS64(diff));
    WrapProduct(diff, diff);
    WrapProduct(diff * diff, v);
  }

  lemma HundredthFits(s: int, v: int)
    requires Fits64(s) && 0 <= v <= H
    ensures ToS64(v - TruncDiv(s, 100)) == v - TruncDiv(s, 100)
  {
    InWord(v - TruncDiv(s, 100));
  }

  /** A product that wraps makes the value fall to 0 all the same iff what is left of it is large enough. */
  predicate FallExact(p: int, v: int) {
    v == 0 || p < TWO63 || ToS64(p) >= 100 * v
  }

  lemma FallenIff(p: int, v: int)
    requires 0 <= v <= H && 0 <= p && (v == 0 ==> p == 0)
    ensures Fallen(p, v) == Floored(v - TruncDiv(p, 100), v) <==> FallExact(p, v)
    ensures 0 <= Fallen(p, v) <= H <==> ToS64(p) >= 100 * (v - H) - 99
  {
    if p < TWO63 { InWord(p); }
  }

  /**
   For every value in range: the penalty as written is the intended one exactly under this condition
   on overrun and value, and in 0..100 exactly under the second.
   */
  lemma PenaltyExactIff(used: int, ctime: int, v: int)
    requires 0 <= v <= H
    ensures var p := (used - ctime) * (used - ctime) * v;
      && (WordPenalized(used, ctime, v) == Penalized(used, ctime, v) <==> FallExact(p, v))
      && (0 <= WordPenalized(used, ctime, v) <= H <==> ToS64(p) >= 100 * (v - H) - 99)
  {
    WordDecayIs(used, ctime, v);
    Square(used - ctime);
    assert (used - ctime) * (used - ctime) * v >= 0;
    FallenIff((used - ctime) * (used - ctime) * v, v);
  }

  lemma NegativePenalty(diff: int, p: int)
    requires diff == 303700050 && p == diff * diff * H
    ensures Fallen(p, H) == 92_233_720_367_093_116
  {
    assert ToS64(p) == p - TWO64;
    DivUnique(TWO64 - p, 100, 92_233_720_367_093_016);
  }

  /** A negative computation time: whatever the second, the first penalty stores a value above 10^12. */
  lemma NegativeTimeWraps(sec: int)
    requires 0 <= sec && (sec + 20) * K < TWO63
    ensures AdmittedAsWritten(sec + 10, sec + 20, -303700050, sec)
    ensures WordInit(sec * K, -303700050, sec + 10, sec + 20) == H
    ensures WordPenalized(0, -303700050, H) > 1_000_000_000_000 && Penalized(0, -303700050, H) == 0
  {
    AdmissionInRangeIff(sec + 10, sec + 20, -303700050, sec);
    WordInitIs(sec * K, -303700050, sec + 10, sec + 20);
    WordDecayIs(0, -303700050, H);
    NegativePenalty(303700050, 303700050 * 303700050 * H);
  }
}
