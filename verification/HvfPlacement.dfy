/**
 CPU placement of waking HVF tasks: the allowed CPUs are sorted by load, the value range is cut
 into equal chunks, and the chunk of the task's value picks the CPU. The library sort is a
 parameter: any function that returns the loads in ascending order.
 */
module HvfPlacement {
  import opened Basics
  import opened HvfValue

  datatype CpuLoad = CpuLoad(cpu: nat, running: nat)

  /** The loads of the CPUs in the mask, in mask order. */
  function Loads(mask: seq<nat>, running: nat -> nat): (r: seq<CpuLoad>)
    ensures |r| == |mask| && forall i :: 0 <= i < |mask| ==> r[i] == CpuLoad(mask[i], running(mask[i]))
  {
    seq(|mask|, i requires 0 <= i < |mask| => CpuLoad(mask[i], running(mask[i])))
  }

  predicate Ascending(s: seq<CpuLoad>) {
    forall i, j :: 0 <= i < j < |s| ==> s[i].running <= s[j].running
  }

  /** One result of sorting: ascending, and the same loads. */
  predicate SortedFrom(s: seq<CpuLoad>, t: seq<CpuLoad>) {
    Ascending(t) && multiset(t) == multiset(s) && |t| == |s|
  }

  ghost predicate Sorts(sort: seq<CpuLoad> -> seq<CpuLoad>) {
    forall s :: SortedFrom(s, sort(s))
  }

  // ---- The chunk of a value.

  const U64: int := 0x1_0000_0000_0000_0000

  /** The position picked for `value` among `n` CPUs: its chunk, or the last one past all chunks. */
  function Slot(value: int, n: nat): (i: nat)
    requires n > 0
    ensures i < n
  {
    if H / n > 0 && 0 <= value < n * (H / n) then
      DivBelow(value, H / n, n);
      value / (H / n)
    else n - 1
  }

  lemma DivBelow(x: int, d: int, n: int)
    requires d > 0 && 0 <= x < n * d
    ensures 0 <= x / d < n
  {
    if x / d >= n { MulMonotone(n, x / d, d); }
  }

  /**
   get_right_cpu. The value is compared as an unsigned 64-bit number, so a negative one is past
   every chunk.
   */
  method GetRightCpu(loads: seq<CpuLoad>, value: int) returns (cpu: nat)
    requires loads != [] && -U64 / 2 <= value < U64 / 2 && |loads| * H < U64 / 2
    ensures cpu == loads[Slot(value, |loads|)].cpu
  {
    var n := |loads|;
    var chunk := H / n;
    var unsigned := if value < 0 then value + U64 else value;
    var j := 0;
    MulMonotone(chunk, H, n);
    while j < n
      invariant 0 <= j <= n && j * chunk <= unsigned
    {
      if unsigned < (j + 1) * chunk {
        MulMonotone(j + 1, n, chunk);
        DivUnique(unsigned, chunk, j);
        return loads[j].cpu;
      }
      j := j + 1;
    }
    cpu := loads[n - 1].cpu;
  }

  /** A higher value never moves to an earlier position. */
  lemma SlotMonotone(v: int, w: int, n: nat)
    requires n > 0 && 0 <= v <= w
    ensures Slot(v, n) <= Slot(w, n)
  {
    var chunk := H / n;
    if chunk > 0 { DivMonotone(v, w, chunk); }
  }

  /** With up to 100 CPUs every position is used, each but the last by equally many values; with more, only the last. */
  lemma SlotExact(v: int, n: nat, i: nat)
    requires i < n && 0 <= v <= H
    ensures n > H ==> Slot(v, n) == n - 1
    ensures n <= H ==> (Slot(v, n) == i <==> i * (H / n) <= v && (i < n - 1 ==> v < (i + 1) * (H / n)))
  {
    if n <= H {
      var chunk := H / n;
      var s := Slot(v, n);
      ChunkPositive(n);
      if v < n * chunk { DivBounds(v, chunk); }
      if i < s { MulMonotone(i + 1, s, chunk); }
      if s < i { MulMonotone(s + 1, i, chunk); }
      if v >= n * chunk { MulMonotone(i, n, chunk); MulMonotone(i + 1, n, chunk); }
    }
  }

  lemma ChunkPositive(n: nat)
    requires 0 < n <= H
    ensures H / n >= 1
  {
    DivUnique(H, n, H / n);
    if H / n < 1 { MulMonotone(H / n + 1, 1, n); }
  }

  /** On the same loads, the task with the higher value gets a CPU at least as busy. */
  lemma HigherValueBusierCpu(s: seq<CpuLoad>, t: seq<CpuLoad>, v: int, w: int)
    requires s != [] && SortedFrom(s, t) && 0 <= v <= w
    ensures t[Slot(v, |t|)].running <= t[Slot(w, |t|)].running
    ensures t[Slot(v, |t|)] in s && t[Slot(w, |t|)] in s
  {
    SlotMonotone(v, w, |t|);
    assert t[Slot(v, |t|)] in multiset(t) && t[Slot(w, |t|)] in multiset(t);
  }

  /** The lowest values go to the least busy CPU of the mask, the highest one to the busiest. */
  lemma ExtremesGoToExtremes(mask: seq<nat>, running: nat -> nat, t: seq<CpuLoad>, cpu: nat)
    requires SortedFrom(Loads(mask, running), t) && cpu in mask && |mask| <= H
    ensures t[Slot(0, |t|)].running <= running(cpu) <= t[Slot(H, |t|)].running
  {
    var m := Listed(mask, running, t, cpu);
    var n := |t|;
    ChunkPositive(n);
    SlotExact(0, n, 0);
    SlotExact(H, n, n - 1);
    LastChunk(n);
  }

  lemma LastChunk(n: nat)
    requires 0 < n
    ensures (n - 1) * (H / n) <= H
  {
    DivBounds(H, n);
    MulMonotone(n - 1, n, H / n);
  }

  /** Every CPU of the mask is among the sorted loads. */
  lemma Listed(mask: seq<nat>, running: nat -> nat, t: seq<CpuLoad>, cpu: nat) returns (m: nat)
    requires SortedFrom(Loads(mask, running), t) && cpu in mask
    ensures m < |t| && t[m] == CpuLoad(cpu, running(cpu))
  {
    var loads := Loads(mask, running);
    var k :| 0 <= k < |mask| && mask[k] == cpu;
    assert loads[k] in multiset(loads);
    assert loads[k] in multiset(t);
    m :| 0 <= m < |t| && t[m] == loads[k];
  }

  // ---- select_task_rq_hvf

  class HvfTask {
    var mask: seq<nat>              // cpus_ptr; nr_cpus_allowed is its length
    var value: int                  // curr_sched_value
    var prevCpu: nat
    var currCpu: nat

    /** The loop of sort_cpu_loads_in_mask. */
    method FillLoads(running: nat -> nat) returns (loads: array<CpuLoad>)
      ensures fresh(loads) && loads[..] == Loads(mask, running)
    {
      loads := new CpuLoad[|mask|](_ => CpuLoad(0, 0));
      var i := 0;
      while i < |mask|
        invariant 0 <= i <= |mask| && fresh(loads) && loads.Length == |mask|
        invariant forall k :: 0 <= k < i ==> loads[k] == CpuLoad(mask[k], running(mask[k]))
      {
        loads[i] := CpuLoad(mask[i], running(mask[i]));
        i := i + 1;
      }
    }

    /** `wakes` says whether the flags hold WF_TTWU or WF_FORK. */
    method SelectTaskRq(prev: nat, wakes: bool, running: nat -> nat, sort: seq<CpuLoad> -> seq<CpuLoad>) returns (cpu: nat)
      requires mask != [] && 0 <= value <= H && |mask| * H < U64 / 2 && Sorts(sort)
      modifies `prevCpu, `currCpu
      ensures prevCpu == prev && currCpu == cpu
      ensures !wakes || |mask| == 1 ==> cpu == prev
      ensures wakes && |mask| > 1 ==> cpu in mask && cpu == sort(Loads(mask, running))[Slot(value, |mask|)].cpu
    {
      cpu := prev;
      if wakes && |mask| != 1 {
        var loads := FillLoads(running);
        var all := loads[..];
        assert SortedFrom(all, sort(all));
        var sorted := sort(all);
        cpu := GetRightCpu(sorted, value);
        HigherValueBusierCpu(all, sorted, value, value);
      }
      prevCpu, currCpu := prev, cpu;
    }
  }
}
