/**
 Utilization clamps of a runqueue: each of UCLAMP_MIN and UCLAMP_MAX keeps reference-counted
 buckets of active tasks and a cached value. The cache refines the plain maximum over the active
 tasks, across enqueue, dequeue, re-increments, the idle flag and clamps enabled mid-run.
 */
module UclampBuckets {
  import opened Basics

  type Task = nat

  const SCALE: nat := 1024                        // SCHED_CAPACITY_SCALE

  datatype ClampId = MinClamp | MaxClamp

  datatype Bucket = Bucket(value: nat, tasks: nat)

  /** struct uclamp_se of a task: its effective clamp as last counted. */
  datatype Se = Se(value: nat, bucketId: nat, active: bool)

  /** Width of a bucket: DIV_ROUND_CLOSEST(SCALE, n). */
  function Delta(n: nat): nat
    requires 0 < n
  {
    (SCALE + n / 2) / n
  }

  /** uclamp_bucket_id */
  function BucketId(n: nat, v: nat): nat
    requires 0 < n && Delta(n) > 0
  {
    if v / Delta(n) < n - 1 then v / Delta(n) else n - 1
  }

  /** The width is the integer closest to SCALE / n. */
  lemma DeltaIsClosest(n: nat)
    requires 0 < n
    ensures -(n as int) <= 2 * (n * Delta(n) - SCALE) <= n
  {
    var h := n / 2;
    DivBounds(SCALE + h, n);
    assert 2 * h <= n <= 2 * h + 1;
  }

  /** Both values lie in the interval `i * Delta(n) .. (i + 1) * Delta(n)`. */
  predicate InInterval(n: nat, i: nat, v: nat, w: nat)
    requires 0 < n
  {
    i * Delta(n) <= v < (i + 1) * Delta(n) && i * Delta(n) <= w < (i + 1) * Delta(n)
  }

  /** Two values share a bucket iff both are past the others, or both lie in one interval of that width. */
  lemma SameBucketIff(n: nat, v: nat, w: nat)
    requires 0 < n && Delta(n) > 0
    ensures BucketId(n, v) == BucketId(n, w) <==>
      (v >= (n - 1) * Delta(n) && w >= (n - 1) * Delta(n)) || exists i: nat :: InInterval(n, i, v, w)
  {
    var d := Delta(n);
    PastIff(n, v);
    PastIff(n, w);
    DivBounds(v, d);
    DivBounds(w, d);
    if v / d == w / d { assert InInterval(n, v / d, v, w); }
    if i: nat :| InInterval(n, i, v, w) {
      DivUnique(v, d, i);
      DivUnique(w, d, i);
    }
  }

  lemma WithinWidth(n: nat, v: nat, m: nat)
    requires 0 < n && Delta(n) > 0 && BucketId(n, v) == BucketId(n, m) && m < (n - 1) * Delta(n)
    ensures v < m + Delta(n) && v < (n - 1) * Delta(n)
  {
    SameBucketIff(n, v, m);
    PastIff(n, v);
    PastIff(n, m);
    var i: nat :| InInterval(n, i, v, m);
    assert (i + 1) * Delta(n) == i * Delta(n) + Delta(n);
  }

  lemma PastIff(n: nat, v: nat)
    requires 0 < n && Delta(n) > 0
    ensures v >= (n - 1) * Delta(n) <==> v / Delta(n) >= n - 1
  {
    var d := Delta(n);
    DivBounds(v, d);
    if v / d >= n - 1 { MulMonotone(n - 1, v / d, d); } else { MulMonotone(v / d + 1, n - 1, d); }
  }

  /** What the counting needs of a bucket function: in range and monotone. */
  ghost predicate Bucketing(f: nat -> nat, n: nat) {
    && 0 < n
    && (forall v :: f(v) < n)
    && (forall v, w :: Ordered(f, v, w))
  }

  predicate Ordered(f: nat -> nat, v: nat, w: nat) {
    v <= w ==> f(v) <= f(w)
  }

  /** `i` is the bucket of `v`: buckets are as wide as Delta(n), and the last one takes all the rest. */
  predicate IsBucketOf(n: nat, v: nat, i: nat)
    requires 0 < n
  {
    i < n && i * Delta(n) <= v && (i < n - 1 ==> v < (i + 1) * Delta(n))
  }

  lemma BucketIdExact(n: nat, v: nat)
    requires 0 < n && Delta(n) > 0
    ensures IsBucketOf(n, v, BucketId(n, v))
  {
    PastIff(n, v);
    DivBounds(v, Delta(n));
  }

  lemma BucketIdIsBucketing(n: nat)
    requires 0 < n && Delta(n) > 0
    ensures Bucketing(Buckets(n), n)
    ensures forall v: nat :: IsBucketOf(n, v, BucketId(n, v))
  {
    forall v: nat ensures IsBucketOf(n, v, BucketId(n, v)) { BucketIdExact(n, v); }
    var f := Buckets(n);
    forall v: nat, w: nat ensures Ordered(f, v, w) {
      if v <= w { DivMonotone(v, w, Delta(n)); }
    }
  }

  /** One clamp id of a runqueue, with the clamp of every task as it counts there. */
  datatype Side = Side(value: nat, buckets: seq<Bucket>, se: map<Task, Se>)

  // ---- Counting.

  function InBucket(se: map<Task, Se>, i: nat): set<Task> {
    set p | p in se && se[p].active && se[p].bucketId == i
  }

  function Active(se: map<Task, Se>): set<Task> {
    set p | p in se && se[p].active
  }

  lemma AddTask(se: map<Task, Se>, p: Task, e: Se, i: nat)
    requires p !in Active(se) && e.active
    ensures |InBucket(se[p := e], i)| == |InBucket(se, i)| + (if i == e.bucketId then 1 else 0)
    ensures Active(se[p := e]) == Active(se) + {p}
  {
    var se' := se[p := e];
    if i == e.bucketId {
      assert InBucket(se', i) == InBucket(se, i) + {p};
    } else {
      assert InBucket(se', i) == InBucket(se, i);
    }
  }

  lemma RemoveTask(se: map<Task, Se>, p: Task, i: nat)
    requires p in Active(se)
    ensures var se' := se[p := se[p].(active := false)];
      && |InBucket(se', i)| == |InBucket(se, i)| - (if i == se[p].bucketId then 1 else 0)
      && Active(se') == Active(se) - {p}
  {
    var se' := se[p := se[p].(active := false)];
    if i == se[p].bucketId {
      assert InBucket(se', i) == InBucket(se, i) - {p};
    } else {
      assert InBucket(se', i) == InBucket(se, i);
    }
  }

  /** The highest bucket below `n` that counts tasks. */
  function Top(bs: seq<Bucket>, n: nat): (r: Option<nat>)
    requires n <= |bs|
    ensures r.None? ==> forall i :: 0 <= i < n ==> bs[i].tasks == 0
    ensures r.Some? ==> r.value < n && bs[r.value].tasks > 0 && forall i :: r.value < i < n ==> bs[i].tasks == 0
  {
    if n == 0 then None else if bs[n - 1].tasks > 0 then Some(n - 1) else Top(bs, n - 1)
  }

  /** Bucket counters count, bucket values bound their tasks and stay inside their bucket. */
  ghost predicate Counted(f: nat -> nat, bs: seq<Bucket>, se: map<Task, Se>) {
    && (forall p :: p in se && se[p].active ==> se[p].bucketId == f(se[p].value) < |bs|)
    && (forall i :: 0 <= i < |bs| ==> bs[i].tasks == |InBucket(se, i)|)
    && (forall i :: 0 <= i < |bs| && bs[i].tasks > 0 ==> f(bs[i].value) == i)
    && (forall p :: p in se && se[p].active ==> se[p].value <= bs[se[p].bucketId].value)
  }

  ghost predicate SideInv(f: nat -> nat, n: nat, d: Side) {
    && Bucketing(f, n) && |d.buckets| == n
    && Counted(f, d.buckets, d.se)
    && (Top(d.buckets, n).Some? ==> d.value == d.buckets[Top(d.buckets, n).value].value)
  }

  /** An active task is counted in its bucket, so that bucket is not empty. */
  lemma ActiveIsCounted(f: nat -> nat, bs: seq<Bucket>, se: map<Task, Se>, p: Task)
    requires Counted(f, bs, se) && p in Active(se)
    ensures se[p].bucketId == f(se[p].value) < |bs| && bs[se[p].bucketId].tasks > 0 && Top(bs, |bs|).Some?
  {
    assert p in InBucket(se, se[p].bucketId);
  }

  lemma NoneActive(f: nat -> nat, bs: seq<Bucket>, se: map<Task, Se>)
    requires Counted(f, bs, se)
    ensures Active(se) == {} <==> Top(bs, |bs|) == None
  {
    if Active(se) != {} {
      var p :| p in Active(se);
      ActiveIsCounted(f, bs, se, p);
    } else {
      forall i | 0 <= i < |bs| ensures bs[i].tasks == 0 {
        assert InBucket(se, i) <= Active(se);
      }
    }
  }

  /** The maximum over the active tasks. */
  ghost predicate IsMaxActive(se: map<Task, Se>, m: nat) {
    (exists p :: p in Active(se) && se[p].value == m) && forall p :: p in Active(se) ==> se[p].value <= m
  }

  /** The cached value is never below the true maximum and lies in the same bucket. */
  lemma CacheRefinesMaximum(f: nat -> nat, n: nat, d: Side, m: nat)
    requires SideInv(f, n, d) && IsMaxActive(d.se, m)
    ensures m <= d.value && f(d.value) == f(m)
  {
    var p :| p in Active(d.se) && d.se[p].value == m;
    ActiveIsCounted(f, d.buckets, d.se, p);
    var t := Top(d.buckets, n).value;
    assert d.buckets[t].tasks == |InBucket(d.se, t)|;
    var q :| q in InBucket(d.se, t);
    assert q in Active(d.se);
    assert Ordered(f, d.se[q].value, m);
  }

  /** Every bucket in use is bounded by the cached value. */
  lemma BucketsBelowCache(f: nat -> nat, n: nat, d: Side, i: nat)
    requires SideInv(f, n, d) && i < n && d.buckets[i].tasks > 0
    ensures d.buckets[i].value <= d.value && Top(d.buckets, n).Some? && i <= Top(d.buckets, n).value
  {
    var t := Top(d.buckets, n).value;
    assert Ordered(f, d.value, d.buckets[i].value);
  }

  // ---- uclamp_rq_inc_id

  function IncBucket(b: Bucket, v: nat): Bucket {
    Bucket(if b.tasks + 1 == 1 || v > b.value then v else b.value, b.tasks + 1)
  }

  function Inc(f: nat -> nat, d: Side, idle: bool, p: Task, v: nat): Side
    requires f(v) < |d.buckets|
  {
    var value := if idle then v else d.value;
    Side(if v > value then v else value,
         d.buckets[f(v) := IncBucket(d.buckets[f(v)], v)],
         d.se[p := Se(v, f(v), true)])
  }

  lemma IncCounts(f: nat -> nat, bs: seq<Bucket>, se: map<Task, Se>, p: Task, v: nat)
    requires Counted(f, bs, se) && p !in Active(se) && f(v) < |bs|
    ensures Counted(f, bs[f(v) := IncBucket(bs[f(v)], v)], se[p := Se(v, f(v), true)])
    ensures Active(se[p := Se(v, f(v), true)]) == Active(se) + {p}
  {
    var bs', se' := bs[f(v) := IncBucket(bs[f(v)], v)], se[p := Se(v, f(v), true)];
    AddTask(se, p, Se(v, f(v), true), 0);
    forall i | 0 <= i < |bs'| ensures bs'[i].tasks == |InBucket(se', i)| {
      AddTask(se, p, Se(v, f(v), true), i);
      assert bs[i].tasks == |InBucket(se, i)|;
    }
    forall q | q in se' && se'[q].active ensures se'[q].value <= bs'[se'[q].bucketId].value {
      if q != p && se[q].bucketId == f(v) {
        assert q in Active(se);
        ActiveIsCounted(f, bs, se, q);
      }
    }
  }

  lemma IncTop(bs: seq<Bucket>, id: nat, b: Bucket)
    requires id < |bs| && b.tasks > 0
    ensures var n := |bs|; var t := Top(bs, n);
      Top(bs[id := b], n) == Some(if t.Some? && t.value > id then t.value else id)
  {
    var bs' := bs[id := b];
    var t, t' := Top(bs, |bs|), Top(bs', |bs|);
    assert bs'[id].tasks > 0;
    assert t'.Some? && t'.value >= id;
    if t.Some? && t.value > id { assert bs'[t.value].tasks > 0; }
  }

  /** The cached value is again that of the topmost bucket. */
  lemma IncCache(f: nat -> nat, n: nat, d: Side, idle: bool, p: Task, v: nat)
    requires SideInv(f, n, d) && f(v) < n
    requires idle ==> Top(d.buckets, n) == None
    requires Top(d.buckets, n) == None ==> idle || d.value == 0
    ensures var d' := Inc(f, d, idle, p, v);
      |d'.buckets| == n && Top(d'.buckets, n).Some? && d'.value == d'.buckets[Top(d'.buckets, n).value].value
  {
    IncTop(d.buckets, f(v), IncBucket(d.buckets[f(v)], v));
    assert Ordered(f, d.value, v) && Ordered(f, v, d.value);
  }

  /** Counting one more task; when the side was empty, the idle flag or a zero value makes room for it. */
  lemma IncKeeps(f: nat -> nat, n: nat, d: Side, idle: bool, p: Task, v: nat)
    requires SideInv(f, n, d) && p !in Active(d.se)
    requires idle ==> Active(d.se) == {}
    requires Active(d.se) == {} ==> idle || d.value == 0
    ensures f(v) < |d.buckets|
    ensures SideInv(f, n, Inc(f, d, idle, p, v)) && Active(Inc(f, d, idle, p, v).se) == Active(d.se) + {p}
  {
    IncCounts(f, d.buckets, d.se, p, v);
    NoneActive(f, d.buckets, d.se);
    IncCache(f, n, d, idle, p, v);
  }

  // ---- uclamp_rq_dec_id

  /** uclamp_rq_max_value and uclamp_idle_value: the topmost counted bucket, or the idle value. */
  function MaxValue(bs: seq<Bucket>, id: ClampId, v: nat): nat {
    match Top(bs, |bs|)
    case Some(t) => bs[t].value
    case None => if id == MaxClamp then v else 0
  }

  function DecBucket(b: Bucket): Bucket {
    b.(tasks := if b.tasks > 0 then b.tasks - 1 else 0)
  }

  /** A task that is not counted is left alone. */
  function Dec(d: Side, id: ClampId, p: Task): Side {
    if p !in d.se || !d.se[p].active || d.se[p].bucketId >= |d.buckets| then d else
    var i := d.se[p].bucketId;
    var bs := d.buckets[i := DecBucket(d.buckets[i])];
    Side(if bs[i].tasks > 0 || bs[i].value < d.value then d.value else MaxValue(bs, id, d.se[p].value),
         bs, d.se[p := d.se[p].(active := false)])
  }

  lemma DecCounts(f: nat -> nat, bs: seq<Bucket>, se: map<Task, Se>, p: Task)
    requires Counted(f, bs, se) && p in Active(se)
    ensures se[p].bucketId < |bs|
    ensures Counted(f, bs[se[p].bucketId := DecBucket(bs[se[p].bucketId])], se[p := se[p].(active := false)])
    ensures Active(se[p := se[p].(active := false)]) == Active(se) - {p}
  {
    ActiveIsCounted(f, bs, se, p);
    var bs', se' := bs[se[p].bucketId := DecBucket(bs[se[p].bucketId])], se[p := se[p].(active := false)];
    RemoveTask(se, p, 0);
    forall i | 0 <= i < |bs'| ensures bs'[i].tasks == |InBucket(se', i)| {
      RemoveTask(se, p, i);
      assert bs[i].tasks == |InBucket(se, i)|;
    }
  }

  lemma DecTop(bs: seq<Bucket>, i: nat, t: nat)
    requires Top(bs, |bs|) == Some(t) && i < |bs| && i != t
    ensures Top(bs[i := DecBucket(bs[i])], |bs|) == Some(t)
  {
    var bs' := bs[i := DecBucket(bs[i])];
    assert bs'[t].tasks > 0;
  }

  /** Neither defensive warning of uclamp_rq_dec_id can fire. */
  lemma WarningsUnreachable(f: nat -> nat, n: nat, d: Side, p: Task)
    requires SideInv(f, n, d) && p in Active(d.se)
    ensures d.se[p].bucketId < n && d.buckets[d.se[p].bucketId].tasks > 0
    ensures d.buckets[d.se[p].bucketId].value <= d.value
  {
    ActiveIsCounted(f, d.buckets, d.se, p);
    BucketsBelowCache(f, n, d, d.se[p].bucketId);
  }

  /** Uncounting a task keeps the invariant and leaves an empty side with its idle value. */
  lemma DecKeeps(f: nat -> nat, n: nat, d: Side, id: ClampId, p: Task)
    requires SideInv(f, n, d) && p in Active(d.se)
    ensures SideInv(f, n, Dec(d, id, p)) && Active(Dec(d, id, p).se) == Active(d.se) - {p}
    ensures Active(d.se) == {p} ==> Dec(d, id, p).value == if id == MaxClamp then d.se[p].value else 0
  {
    WarningsUnreachable(f, n, d, p);
    DecCounts(f, d.buckets, d.se, p);
    var d' := Dec(d, id, p);
    NoneActive(f, d'.buckets, d'.se);
    var i, t := d.se[p].bucketId, Top(d.buckets, n).value;
    if i != t {
      DecTop(d.buckets, i, t);
      assert f(d.buckets[i].value) == i && f(d.value) == t;
    } else if d'.buckets[i].tasks > 0 {
      assert Top(d'.buckets, n) == Some(t);
    }
  }

  // ---- The runqueue: both clamps and the idle flag.

  datatype Rq = Rq(min: Side, max: Side, idle: bool)

  ghost predicate RqInv(f: nat -> nat, n: nat, r: Rq) {
    && SideInv(f, n, r.min) && SideInv(f, n, r.max)
    && Active(r.min.se) == Active(r.max.se) && (r.idle <==> Active(r.max.se) == {})
  }

  /** uclamp_rq_dec_id raises the idle flag when the last task leaves UCLAMP_MAX. */
  predicate GoesIdle(d: Side, id: ClampId, p: Task) {
    && id == MaxClamp && p in d.se && d.se[p].active && d.se[p].bucketId < |d.buckets|
    && var i := d.se[p].bucketId;
       var bs := d.buckets[i := DecBucket(d.buckets[i])];
       bs[i].tasks == 0 && bs[i].value >= d.value && Top(bs, |bs|).None?
  }

  lemma GoesIdleIffLast(f: nat -> nat, n: nat, d: Side, p: Task)
    requires SideInv(f, n, d)
    ensures GoesIdle(d, MaxClamp, p) <==> Active(d.se) == {p}
  {
    if p in Active(d.se) {
      WarningsUnreachable(f, n, d, p);
      DecCounts(f, d.buckets, d.se, p);
      var i := d.se[p].bucketId;
      var bs := d.buckets[i := DecBucket(d.buckets[i])];
      NoneActive(f, bs, d.se[p := d.se[p].(active := false)]);
      if Active(d.se) == {p} { OnlyBucket(d.buckets, i); }
    }
  }

  lemma OnlyBucket(bs: seq<Bucket>, i: nat)
    requires i < |bs| && bs[i].tasks > 0 && Top(bs[i := DecBucket(bs[i])], |bs|) == None
    ensures Top(bs, |bs|) == Some(i)
  {
    var bs' := bs[i := DecBucket(bs[i])];
    assert forall j :: 0 <= j < |bs| && j != i ==> bs[j] == bs'[j];
  }

  function Enqueued(f: nat -> nat, r: Rq, p: Task, vMin: nat, vMax: nat): Rq
    requires f(vMin) < |r.min.buckets| && f(vMax) < |r.max.buckets|
  {
    Rq(Inc(f, r.min, r.idle, p, vMin), Inc(f, r.max, r.idle, p, vMax), false)
  }

  function Dequeued(r: Rq, p: Task): Rq {
    Rq(Dec(r.min, MinClamp, p), Dec(r.max, MaxClamp, p), r.idle || GoesIdle(r.max, MaxClamp, p))
  }

  lemma EnqueueKeeps(f: nat -> nat, n: nat, r: Rq, p: Task, vMin: nat, vMax: nat)
    requires RqInv(f, n, r) && p !in Active(r.max.se)
    ensures f(vMin) < n && f(vMax) < n
    ensures RqInv(f, n, Enqueued(f, r, p, vMin, vMax))
    ensures Active(Enqueued(f, r, p, vMin, vMax).max.se) == Active(r.max.se) + {p}
  {
    IncKeeps(f, n, r.min, r.idle, p, vMin);
    IncKeeps(f, n, r.max, r.idle, p, vMax);
  }

  lemma DequeueKeeps(f: nat -> nat, n: nat, r: Rq, p: Task)
    requires RqInv(f, n, r)
    ensures RqInv(f, n, Dequeued(r, p)) && Active(Dequeued(r, p).max.se) == Active(r.max.se) - {p}
    ensures p !in Active(r.max.se) ==> Dequeued(r, p) == r
  {
    GoesIdleIffLast(f, n, r.max, p);
    if p in Active(r.max.se) {
      DecKeeps(f, n, r.min, MinClamp, p);
      DecKeeps(f, n, r.max, MaxClamp, p);
    } else {
      assert p !in Active(r.min.se);
    }
  }

  /** uclamp_rq_reinc_id of a counted task, through a state in which its side may be empty. */
  function Reincremented(f: nat -> nat, r: Rq, id: ClampId, p: Task, v: nat): Rq
    requires f(v) < |r.min.buckets| && f(v) < |r.max.buckets|
  {
    if id == MinClamp then r.(min := Inc(f, Dec(r.min, id, p), r.idle, p, v))
    else r.(max := Inc(f, Dec(r.max, id, p), r.idle || GoesIdle(r.max, id, p), p, v), idle := false)
  }

  lemma SetMinus(a: set<Task>, p: Task)
    requires p in a
    ensures (a - {p} == {} <==> a == {p}) && a - {p} + {p} == a && p !in a - {p}
  {
  }

  /** Recounting a task on one side, the flag telling whether that side is empty meanwhile. */
  lemma RecountKeeps(f: nat -> nat, n: nat, d: Side, id: ClampId, idle: bool, p: Task, v: nat)
    requires SideInv(f, n, d) && p in Active(d.se)
    requires if id == MaxClamp then idle <==> Active(d.se) == {p} else !idle
    ensures f(v) < n && |Dec(d, id, p).buckets| == n
    ensures SideInv(f, n, Inc(f, Dec(d, id, p), idle, p, v)) && Active(Inc(f, Dec(d, id, p), idle, p, v).se) == Active(d.se)
  {
    DecKeeps(f, n, d, id, p);
    var u := Dec(d, id, p);
    SetMinus(Active(d.se), p);
    IncKeeps(f, n, u, idle, p, v);
  }

  lemma ReincKeeps(f: nat -> nat, n: nat, r: Rq, id: ClampId, p: Task, v: nat)
    requires RqInv(f, n, r) && p in Active(r.max.se)
    ensures f(v) < n && RqInv(f, n, Reincremented(f, r, id, p, v))
    ensures Active(Reincremented(f, r, id, p, v).max.se) == Active(r.max.se)
  {
    if id == MinClamp {
      RecountKeeps(f, n, r.min, id, r.idle, p, v);
    } else {
      GoesIdleIffLast(f, n, r.max, p);
      RecountKeeps(f, n, r.max, id, GoesIdle(r.max, id, p), p, v);
    }
  }

  /** Every other task counts with the clamps it counted with. */
  predicate OthersKept(r: Rq, r': Rq, p: Task) {
    r'.min.se - {p} == r.min.se - {p} && r'.max.se - {p} == r.max.se - {p}
  }

  /** The last task leaves no minimum and its own maximum behind. */
  predicate LeavesIdle(r: Rq, r': Rq, p: Task) {
    Active(r.max.se) == {p} ==> r'.idle && r'.min.value == 0 && p in r.max.se && r'.max.value == r.max.se[p].value
  }

  lemma LastLeaves(f: nat -> nat, n: nat, r: Rq, p: Task)
    requires RqInv(f, n, r)
    ensures LeavesIdle(r, Dequeued(r, p), p)
  {
    if Active(r.max.se) == {p} {
      assert p in Active(r.max.se) && p in Active(r.min.se);
      DecKeeps(f, n, r.min, MinClamp, p);
      DecKeeps(f, n, r.max, MaxClamp, p);
      GoesIdleIffLast(f, n, r.max, p);
    }
  }

  /** Enqueues, dequeues and re-increments concern one task. */
  lemma OthersStay(f: nat -> nat, r: Rq, id: ClampId, p: Task, v: nat, w: nat)
    ensures OthersKept(r, Dequeued(r, p), p)
    ensures f(v) < |r.min.buckets| && f(w) < |r.max.buckets| ==> OthersKept(r, Enqueued(f, r, p, v, w), p)
    ensures f(v) < |r.min.buckets| && f(v) < |r.max.buckets| ==> OthersKept(r, Reincremented(f, r, id, p, v), p)
  {
  }

  function Buckets(n: nat): nat -> nat
    requires 0 < n && Delta(n) > 0
  {
    v => BucketId(n, v)
  }

  class ClampRq {
    const n: nat                    // UCLAMP_BUCKETS
    var min: Side
    var max: Side
    var idle: bool                  // UCLAMP_FLAG_IDLE
    var used: bool                  // the static key sched_uclamp_used

    predicate Sized()
      reads this
    {
      0 < n && Delta(n) > 0 && |min.buckets| == n && |max.buckets| == n
    }

    function State(): Rq
      reads this
    {
      Rq(min, max, idle)
    }

    ghost predicate Valid()
      reads this
    {
      Sized() && RqInv(Buckets(n), n, State())
    }

    function Get(id: ClampId): Side
      reads this
    {
      if id == MinClamp then min else max
    }

    /** init_uclamp_rq */
    constructor (n: nat)
      requires 0 < n && Delta(n) > 0
      ensures Valid() && this.n == n && idle && !used
      ensures min.value == 0 && max.value == SCALE && Active(max.se) == {}
    {
      this.n := n;
      var empty := seq(n, i => Bucket(0, 0));
      min, max := Side(0, empty, map[]), Side(SCALE, empty, map[]);
      idle, used := true, false;
      new;
      BucketIdIsBucketing(n);
      assert forall i :: 0 <= i < n ==> InBucket(map[], i) == {};
      assert Top(min.buckets, n).None?;
    }

    /** static_branch_enable(&sched_uclamp_used); it is never disabled again */
    method Enable()
      requires Valid()
      modifies `used
      ensures Valid() && used && State() == old(State())
    {
      used := true;
    }

    /** uclamp_rq_max_value: scans down for the topmost bucket with tasks; going idle is flagged. */
    method FindMaxValue(bs: seq<Bucket>, id: ClampId, v: nat) returns (value: nat, wentIdle: bool)
      ensures value == MaxValue(bs, id, v)
      ensures wentIdle <==> id == MaxClamp && Top(bs, |bs|).None?
    {
      var i := |bs|;
      while i > 0
        invariant 0 <= i <= |bs| && Top(bs, |bs|) == Top(bs, i)
      {
        i := i - 1;
        if bs[i].tasks > 0 { return bs[i].value, false; }
      }
      if id == MaxClamp { return v, true; }
      return 0, false;
    }

    /** uclamp_rq_inc_id, with the task's effective clamp `v` */
    method IncId(id: ClampId, p: Task, v: nat)
      requires Sized()
      modifies `min, `max
      ensures Sized() && Get(id) == Inc(Buckets(n), old(Get(id)), idle, p, v)
      ensures if id == MinClamp then max == old(max) else min == old(min)
    {
      var d := Get(id);
      var b := BucketId(n, v);
      var bucket := d.buckets[b].(tasks := d.buckets[b].tasks + 1);
      var value := d.value;
      if idle { value := v; }                             // uclamp_idle_reset
      if bucket.tasks == 1 || v > bucket.value { bucket := bucket.(value := v); }
      if v > value { value := v; }
      d := Side(value, d.buckets[b := bucket], d.se[p := Se(v, b, true)]);
      if id == MinClamp { min := d; } else { max := d; }
    }

    /** uclamp_rq_dec_id: unbalanced calls for tasks that were never counted do nothing */
    method DecId(id: ClampId, p: Task)
      requires Sized()
      modifies `min, `max, `idle
      ensures Sized() && Get(id) == Dec(old(Get(id)), id, p)
      ensures if id == MinClamp then max == old(max) else min == old(min)
      ensures idle <==> old(idle) || GoesIdle(old(Get(id)), id, p)
    {
      var d := Get(id);
      if p !in d.se || !d.se[p].active || d.se[p].bucketId >= n { return; }
      var i := d.se[p].bucketId;
      var bucket := d.buckets[i];
      if bucket.tasks > 0 { bucket := bucket.(tasks := bucket.tasks - 1); }
      var bs := d.buckets[i := bucket];
      var value := d.value;
      if bucket.tasks == 0 && bucket.value >= value {
        var went;
        value, went := FindMaxValue(bs, id, d.se[p].value);
        if went { idle := true; }
      }
      d := Side(value, bs, d.se[p := d.se[p].(active := false)]);
      if id == MinClamp { min := d; } else { max := d; }
    }

    /** uclamp_rq_inc on enqueue; `skip` for classes without clamps and delayed tasks */
    method Enqueue(p: Task, vMin: nat, vMax: nat, skip: bool)
      requires Valid() && p !in Active(max.se)
      modifies `min, `max, `idle
      ensures Valid()
      ensures used && !skip ==>
                Active(max.se) == old(Active(max.se)) + {p} && max.se[p].value == vMax && min.se[p].value == vMin
      ensures OthersKept(old(State()), State(), p)
      ensures !used || skip ==> State() == old(State())
    {
      if !used || skip { return; }
      EnqueueKeeps(Buckets(n), n, State(), p, vMin, vMax);
      OthersStay(Buckets(n), State(), MinClamp, p, vMin, vMax);
      IncBoth(p, vMin, vMax);
    }

    method IncBoth(p: Task, vMin: nat, vMax: nat)
      requires Sized()
      modifies `min, `max, `idle
      ensures Sized() && State() == Enqueued(Buckets(n), old(State()), p, vMin, vMax)
    {
      IncId(MinClamp, p, vMin);
      IncId(MaxClamp, p, vMax);
      if idle { idle := false; }
    }

    /** uclamp_rq_dec on dequeue */
    method Dequeue(p: Task, skip: bool)
      requires Valid()
      modifies `min, `max, `idle
      ensures Valid()
      ensures used && !skip ==> State() == Dequeued(old(State()), p) && Active(max.se) == old(Active(max.se)) - {p}
      ensures used && !skip ==> LeavesIdle(old(State()), State(), p)
      ensures OthersKept(old(State()), State(), p)
      ensures !used || skip || p !in old(Active(max.se)) ==> State() == old(State())
    {
      if !used || skip { return; }
      DequeueKeeps(Buckets(n), n, State(), p);
      LastLeaves(Buckets(n), n, State(), p);
      OthersStay(Buckets(n), State(), MinClamp, p, 0, 0);
      DecBoth(p);
    }

    method DecBoth(p: Task)
      requires Sized()
      modifies `min, `max, `idle
      ensures Sized() && State() == Dequeued(old(State()), p)
    {
      DecId(MinClamp, p);
      DecId(MaxClamp, p);
    }

    /** uclamp_rq_reinc_id: a counted task is moved to its new effective clamp */
    method Reinc(id: ClampId, p: Task, v: nat)
      requires Valid()
      modifies `min, `max, `idle
      ensures Valid() && Active(max.se) == old(Active(max.se))
      ensures if p in Active(max.se) then Get(id).se[p].value == v else State() == old(State())
      ensures if id == MinClamp then max == old(max) else min == old(min)
      ensures OthersKept(old(State()), State(), p)
    {
      assert p in Active(min.se) <==> p in Active(max.se);
      var d := Get(id);
      if p !in d.se || !d.se[p].active { return; }
      ReincKeeps(Buckets(n), n, State(), id, p, v);
      OthersStay(Buckets(n), State(), id, p, v, v);
      Recount(id, p, v);
    }

    method Recount(id: ClampId, p: Task, v: nat)
      requires Sized()
      modifies `min, `max, `idle
      ensures Sized() && State() == Reincremented(Buckets(n), old(State()), id, p, v)
    {
      DecId(id, p);
      IncId(id, p, v);
      if id == MaxClamp && idle { idle := false; }
    }

    /**
     In every state with an active task, each cached value is at least the plain maximum and exceeds
     it by less than the width of a bucket, unless the maximum is in the last one; then so is the
     cached value.
     */
    lemma CacheIsSound(id: ClampId, m: nat)
      requires Valid() && IsMaxActive(Get(id).se, m)
      ensures m <= Get(id).value && BucketId(n, Get(id).value) == BucketId(n, m)
      ensures m < (n - 1) * Delta(n) ==> Get(id).value < m + Delta(n) && Get(id).value < (n - 1) * Delta(n)
    {
      CacheRefinesMaximum(Buckets(n), n, Get(id), m);
      if m < (n - 1) * Delta(n) { WithinWidth(n, Get(id).value, m); }
    }
  }
}
