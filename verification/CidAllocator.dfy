/**
 Allocation of an id (__mm_cid_try_get): alone, with its loops as written; against arbitrary
 interference, as a state machine over its atomic accesses; and the pigeonhole argument that
 the final scan finds a free id.
 */
module CidAllocator {
  import opened Basics
  import opened CidModel
  import opened CidOwnership

  predicate IsFirstFree(bits: set<Cid>, from: Cid, c: Cid) {
    from <= c && c !in bits && forall d :: from <= d < c ==> d in bits
  }

  function Min(a: nat, b: nat): nat {
    if a < b then a else b
  }

  /** The memory the allocator works on. */
  datatype Shared = Shared(bits: set<Cid>, maxNrCid: nat, nrCpusAllowed: nat, users: nat)

  /**
   What an allocation that nobody disturbs does: it takes the recent id if it is free and within the
   range in use; else the first free id by which that range may grow; else the first free id.
   */
  ghost predicate Allocates(m: Shared, recent: Option<Cid>, cid: Cid, m': Shared) {
    && cid < m.nrCpusAllowed && cid !in m.bits && m' == m.(bits := m.bits + {cid}, maxNrCid := m'.maxNrCid)
    && var limit := Min(m.nrCpusAllowed, m.users); var range := Min(m.maxNrCid, limit);
       if recent.Some? && recent.value < range && recent.value !in m.bits then
         cid == recent.value && m'.maxNrCid == range
       else if exists c: Cid :: range <= c < limit && c !in m.bits then
         IsFirstFree(m.bits, range, cid) && m'.maxNrCid == cid + 1 <= limit
       else
         IsFirstFree(m.bits, 0, cid) && m'.maxNrCid == limit
  }

  /** The allocator's part of the mm. */
  class CidMask {
    var bits: set<Cid>
    var maxNrCid: nat
    var nrCpusAllowed: nat
    var users: nat

    constructor (nrCpusAllowed: nat, users: nat)
      ensures this.bits == {} && maxNrCid == 0
      ensures this.nrCpusAllowed == nrCpusAllowed && this.users == users
    {
      bits, maxNrCid := {}, 0;
      this.nrCpusAllowed, this.users := nrCpusAllowed, users;
    }

    function Mem(): Shared
      reads this
    {
      Shared(bits, maxNrCid, nrCpusAllowed, users)
    }

    /** cpumask_first_zero */
    method FirstZero() returns (c: Cid)
      requires exists d: Cid :: d !in bits
      ensures IsFirstFree(bits, 0, c)
    {
      ghost var d: Cid :| d !in bits;
      c := 0;
      while c in bits
        invariant c <= d && forall e :: 0 <= e < c ==> e in bits
        decreases d - c
      {
        c := c + 1;
      }
    }

    /**
     __mm_cid_try_get while nobody else allocates or frees. It needs some id below nr_cpus_allowed
     to be free, or the scan spins.
     */
    method TryGet(recent: Option<Cid>) returns (cid: Cid)
      requires exists c: Cid :: c < nrCpusAllowed && c !in bits
      modifies `bits, `maxNrCid
      ensures Allocates(old(Mem()), recent, cid, Mem())
    {
      var limit := Min(nrCpusAllowed, users);
      var max := maxNrCid;
      while max > limit
        invariant bits == old(bits) && max == maxNrCid && (max == old(maxNrCid) || max == limit)
      {
        maxNrCid := limit;
        max := limit;
      }
      if recent.Some? && recent.value < max && recent.value !in bits {
        bits := bits + {recent.value};
        return recent.value;
      }
      cid := max;
      while cid < nrCpusAllowed && cid < users
        invariant max <= cid <= limit && maxNrCid == cid && bits == old(bits)
        invariant forall d :: max <= d < cid ==> d in bits
        decreases limit - cid
      {
        maxNrCid := cid + 1;
        if cid !in bits {
          bits := bits + {cid};
          return;
        }
        cid := cid + 1;     // the next cmpxchg fails once and loads the new maximum
      }
      ghost var c: Cid :| c < nrCpusAllowed && c !in bits;
      cid := FirstZero();
      bits := bits + {cid};
    }
  }

  // ---- The same code under interference.

  datatype Pc =
    | LoadMax
    | LoadAllowed(max: nat)                     // in the shrinking loop
    | LoadUsers(max: nat, allowed: nat)
    | Shrink(max: nat, limit: nat)
    | Reuse(max: nat)
    | ExpandAllowed(cid: Cid)
    | ExpandUsers(cid: Cid)
    | Expand(cid: Cid)
    | ExpandTake(cid: Cid)
    | Scan
    | ScanCheck(cid: Cid)
    | ScanTake(cid: Cid)
    | Done(cid: Cid)
    | Failed

  datatype Config = Config(mem: Shared, pc: Pc, recent: Option<Cid>)

  /** Others may change all of it; the set of allowed CPUs only grows. */
  predicate Interferes(m: Shared, m': Shared) {
    m.nrCpusAllowed <= m'.nrCpusAllowed
  }

  /** test_and_set_cpu */
  function TakeOr(g: Config, c: Cid, otherwise: Pc): Config {
    if c in g.mem.bits then g.(pc := otherwise)
    else g.(mem := g.mem.(bits := g.mem.bits + {c}), pc := Done(c))
  }

  /** The next atomic access; `None` when it has returned, or when the scan finds no zero bit. */
  ghost function Next(g: Config): Option<Config> {
    var m := g.mem;
    match g.pc
    case LoadMax => Some(g.(pc := LoadAllowed(m.maxNrCid)))
    case LoadAllowed(max) => Some(g.(pc := LoadUsers(max, m.nrCpusAllowed)))
    case LoadUsers(max, allowed) =>
      var limit := Min(allowed, m.users);
      Some(g.(pc := if max > limit then Shrink(max, limit) else Reuse(max)))
    case Shrink(max, limit) =>
      Some(if m.maxNrCid == max then g.(mem := m.(maxNrCid := limit), pc := Reuse(limit))
           else g.(pc := LoadAllowed(m.maxNrCid)))
    case Reuse(max) =>
      Some(if g.recent.Some? && g.recent.value < max then TakeOr(g, g.recent.value, ExpandAllowed(max))
           else g.(pc := ExpandAllowed(max)))
    case ExpandAllowed(c) => Some(g.(pc := if c < m.nrCpusAllowed then ExpandUsers(c) else Scan))
    case ExpandUsers(c) => Some(g.(pc := if c < m.users then Expand(c) else Scan))
    case Expand(c) =>
      Some(if m.maxNrCid == c then g.(mem := m.(maxNrCid := c + 1), pc := ExpandTake(c))
           else g.(pc := ExpandAllowed(m.maxNrCid)))
    case ExpandTake(c) => Some(TakeOr(g, c, ExpandAllowed(c)))
    case Scan =>
      if exists c :: IsFirstFree(m.bits, 0, c) then
        var c :| IsFirstFree(m.bits, 0, c);
        Some(g.(pc := ScanCheck(c)))
      else None
    case ScanCheck(c) => Some(g.(pc := if c < m.nrCpusAllowed then ScanTake(c) else Scan))
    case ScanTake(c) => Some(TakeOr(g, c, Failed))
    case Done(_) => None
    case Failed => None
  }

  /** A run of the allocator: its own accesses interleaved with changes by others. */
  ghost predicate IsAllocation(run: seq<Config>) {
    && |run| > 0 && run[0].pc.LoadMax?
    && (forall i :: 0 <= i < |run| - 1 ==> Linked(run[i], run[i + 1]))
  }

  ghost predicate Linked(g: Config, g': Config) {
    Next(g) == Some(g') || Interrupted(g, g')
  }

  ghost predicate Interrupted(g: Config, g': Config) {
    g'.pc == g.pc && g'.recent == g.recent && Interferes(g.mem, g'.mem)
  }

  /** What the private registers are bounded by. */
  predicate Bounded(g: Config) {
    match g.pc
    case LoadUsers(_, allowed) => allowed <= g.mem.nrCpusAllowed
    case Shrink(_, limit) => limit <= g.mem.nrCpusAllowed
    case Reuse(max) => max <= g.mem.nrCpusAllowed
    case ExpandUsers(c) => c < g.mem.nrCpusAllowed
    case Expand(c) => c < g.mem.nrCpusAllowed
    case ExpandTake(c) => c < g.mem.nrCpusAllowed
    case ScanTake(c) => c < g.mem.nrCpusAllowed
    case _ => true
  }

  lemma {:induction false} RunIsBounded(run: seq<Config>, i: nat)
    requires IsAllocation(run) && i < |run|
    ensures Bounded(run[i])
  {
    if i > 0 {
      RunIsBounded(run, i - 1);
      assert Linked(run[i - 1], run[i]);
    }
  }

  /**
   Whatever others do meanwhile, the access that returns an id is a test-and-set of a clear bit,
   of an id below nr_cpus_allowed at that moment. This is the step `Take` of CidModel.
   */
  lemma AllocatedIdIsFreshAndAllowed(run: seq<Config>, i: nat)
    requires IsAllocation(run) && i + 1 < |run|
    requires !run[i].pc.Done? && run[i + 1].pc.Done?
    ensures var c := run[i + 1].pc.cid;
      c < run[i].mem.nrCpusAllowed && c !in run[i].mem.bits && run[i + 1].mem == run[i].mem.(bits := run[i].mem.bits + {c})
  {
    RunIsBounded(run, i);
    assert Linked(run[i], run[i + 1]);
  }

  // ---- Undisturbed, the accesses do what the loops do.

  /** The state after `n` accesses of its own. */
  ghost function Alone(g: Config, n: nat): Option<Config>
    decreases n
  {
    if n == 0 then Some(g) else match Next(g) case Some(h) => Alone(h, n - 1) case None => None
  }

  ghost predicate Leads(g: Config, h: Config) {
    exists n: nat :: Alone(g, n) == Some(h)
  }

  lemma LeadsSelf(g: Config)
    ensures Leads(g, g)
  {
    assert Alone(g, 0) == Some(g);
  }

  lemma Before(g: Config, h: Config, k: Config)
    requires Next(g) == Some(h) && Leads(h, k)
    ensures Leads(g, k)
  {
    var n: nat :| Alone(h, n) == Some(k);
    assert Alone(g, n + 1) == Some(k);
  }

  ghost predicate Ends(g: Config, k: Config, cid: Cid, max: nat) {
    Leads(g, k) && k == g.(pc := Done(cid), mem := g.mem.(bits := g.mem.bits + {cid}, maxNrCid := max))
  }

  lemma Scans(g: Config) returns (k: Config, cid: Cid)
    requires g.pc.Scan? && exists c: Cid :: c < g.mem.nrCpusAllowed && c !in g.mem.bits
    ensures Ends(g, k, cid, g.mem.maxNrCid) && cid < g.mem.nrCpusAllowed && IsFirstFree(g.mem.bits, 0, cid)
  {
    var c: Cid :| c < g.mem.nrCpusAllowed && c !in g.mem.bits;
    var d := FreeBelow(g.mem.bits, c);
    var g1 := Next(g).value;
    cid := g1.pc.cid;
    assert IsFirstFree(g.mem.bits, 0, cid) && cid <= c;
    var g2 := g1.(pc := ScanTake(cid));
    k := TakeOr(g2, cid, Failed);
    LeadsSelf(k);
    Before(g2, k, k);
    Before(g1, g2, k);
    Before(g, g1, k);
  }

  lemma FreeBelow(bits: set<Cid>, c: Cid) returns (d: Cid)
    requires c !in bits
    ensures d <= c && IsFirstFree(bits, 0, d)
  {
    d := 0;
    while d in bits
      invariant d <= c && forall e: Cid :: e < d ==> e in bits
      decreases c - d
    {
      d := d + 1;
    }
  }

  /** The loop that grows the range, from where it stands. */
  lemma {:induction false} Grows(g: Config, c: Cid) returns (k: Config, cid: Cid, max: nat)
    requires g.pc == ExpandAllowed(c) && g.mem.maxNrCid == c <= Min(g.mem.nrCpusAllowed, g.mem.users)
    requires exists d: Cid :: d < g.mem.nrCpusAllowed && d !in g.mem.bits
    ensures Ends(g, k, cid, max) && cid < g.mem.nrCpusAllowed && cid !in g.mem.bits
    ensures var limit := Min(g.mem.nrCpusAllowed, g.mem.users);
      if exists d: Cid :: c <= d < limit && d !in g.mem.bits then IsFirstFree(g.mem.bits, c, cid) && max == cid + 1 <= limit
      else IsFirstFree(g.mem.bits, 0, cid) && max == limit
    decreases Min(g.mem.nrCpusAllowed, g.mem.users) - c
  {
    var m := g.mem;
    if c >= m.nrCpusAllowed {
      k, cid := Scans(g.(pc := Scan));
      max := c;
      Before(g, g.(pc := Scan), k);
    } else if c >= m.users {
      k, cid := Scans(g.(pc := Scan));
      max := c;
      Before(g.(pc := ExpandUsers(c)), g.(pc := Scan), k);
      Before(g, g.(pc := ExpandUsers(c)), k);
    } else {
      var g1 := g.(mem := m.(maxNrCid := c + 1), pc := ExpandTake(c));
      k, cid, max := Tries(g1, c);
      Before(g.(pc := Expand(c)), g1, k);
      Before(g.(pc := ExpandUsers(c)), g.(pc := Expand(c)), k);
      Before(g, g.(pc := ExpandUsers(c)), k);
    }
  }

  /** The id the range has just grown by is taken if it is free; otherwise the range grows again. */
  lemma {:induction false} Tries(g: Config, c: Cid) returns (k: Config, cid: Cid, max: nat)
    requires g.pc == ExpandTake(c) && g.mem.maxNrCid == c + 1 <= Min(g.mem.nrCpusAllowed, g.mem.users)
    requires exists d: Cid :: d < g.mem.nrCpusAllowed && d !in g.mem.bits
    ensures Ends(g, k, cid, max) && cid < g.mem.nrCpusAllowed && cid !in g.mem.bits
    ensures var limit := Min(g.mem.nrCpusAllowed, g.mem.users);
      if exists d: Cid :: c <= d < limit && d !in g.mem.bits then IsFirstFree(g.mem.bits, c, cid) && max == cid + 1 <= limit
      else IsFirstFree(g.mem.bits, 0, cid) && max == limit
    decreases Min(g.mem.nrCpusAllowed, g.mem.users) - c, 0
  {
    if c !in g.mem.bits {
      cid, max := c, c + 1;
      k := TakeOr(g, c, ExpandAllowed(c));
      LeadsSelf(k);
      Before(g, k, k);
    } else {
      var g4 := g.(pc := ExpandAllowed(c + 1));
      k, cid, max := Grows(g4, c + 1);
      Before(g.(pc := Expand(c)), g4, k);
      Before(g.(pc := ExpandUsers(c)), g.(pc := Expand(c)), k);
      Before(g.(pc := ExpandAllowed(c)), g.(pc := ExpandUsers(c)), k);
      Before(g, g.(pc := ExpandAllowed(c)), k);
    }
  }

  /** The tail of the allocation, once the range is within its limits. */
  lemma Reuses(g: Config, range: nat) returns (k: Config, cid: Cid)
    requires g.pc == Reuse(range) && g.mem.maxNrCid == range <= Min(g.mem.nrCpusAllowed, g.mem.users)
    requires exists c: Cid :: c < g.mem.nrCpusAllowed && c !in g.mem.bits
    ensures Leads(g, k) && k.pc == Done(cid) && Allocates(g.mem, g.recent, cid, k.mem)
  {
    if g.recent.Some? && g.recent.value < range && g.recent.value !in g.mem.bits {
      cid := g.recent.value;
      k := TakeOr(g, cid, ExpandAllowed(range));
      LeadsSelf(k);
      Before(g, k, k);
    } else {
      var max;
      k, cid, max := Grows(g.(pc := ExpandAllowed(range)), range);
      Before(g, g.(pc := ExpandAllowed(range)), k);
    }
  }

  /** Left alone, the accesses of an allocation end with the id and the memory that the loops give. */
  lemma AloneAllocates(g: Config) returns (k: Config, cid: Cid)
    requires g.pc.LoadMax? && exists c: Cid :: c < g.mem.nrCpusAllowed && c !in g.mem.bits
    ensures Leads(g, k) && k.pc == Done(cid) && Allocates(g.mem, g.recent, cid, k.mem)
  {
    var m := g.mem;
    var limit := Min(m.nrCpusAllowed, m.users);
    var g1, g2 := g.(pc := LoadAllowed(m.maxNrCid)), g.(pc := LoadUsers(m.maxNrCid, m.nrCpusAllowed));
    if m.maxNrCid > limit {
      var g3 := g.(pc := Shrink(m.maxNrCid, limit));
      var g4 := g.(mem := m.(maxNrCid := limit), pc := Reuse(limit));
      k, cid := Reuses(g4, limit);
      Before(g3, g4, k);
      Before(g2, g3, k);
    } else {
      var g3 := g.(pc := Reuse(m.maxNrCid));
      k, cid := Reuses(g3, m.maxNrCid);
      Before(g2, g3, k);
    }
    Before(g1, g2, k);
    Before(g, g1, k);
  }

  // ---- Pigeonhole: a CPU without an id finds one.

  /** No id is in flight: every holder is a slot. */
  ghost predicate NothingInFlight(s: State) {
    forall h :: Held(s, h).Some? ==> h.AtSlot?
  }

  ghost function Occupied(s: State): set<Cpu> {
    set k | 0 <= k < |s.slots| && !s.slots[k].Unset?
  }

  function Upto(n: nat): (r: set<nat>)
    ensures |r| == n && forall c: nat :: c in r <==> c < n
  {
    if n == 0 then {} else Upto(n - 1) + {n - 1}
  }

  /** The ids taken are as many as the slots that hold one. */
  lemma {:induction false} AsManyIdsAsSlots(s: State, ids: set<Cid>, cpus: set<Cpu>)
    requires OwnershipInv(s) && cpus <= Occupied(s)
    requires forall c :: c in ids <==> exists k :: k in cpus && s.slots[k].cid == c
    ensures |ids| == |cpus|
    decreases |cpus|
  {
    if cpus != {} {
      var k :| k in cpus;
      var c := s.slots[k].cid;
      assert c in ids;
      forall d ensures d in ids - {c} <==> exists j :: j in cpus - {k} && s.slots[j].cid == d {
        if d in ids - {c} {
          var j :| j in cpus && s.slots[j].cid == d;
          assert j in cpus - {k};
        }
        if j :| j in cpus - {k} && s.slots[j].cid == d {
          assert Held(s, AtSlot(j)).Some? && Held(s, AtSlot(k)).Some?;
          assert j in cpus;
        }
      }
      AsManyIdsAsSlots(s, ids - {c}, cpus - {k});
    } else {
      assert ids == {};
    }
  }

  /**
   If at most `n` CPUs can hold an id, and no id is in flight, then a CPU whose slot is unset
   finds a free id below `n`: the scan of __mm_cid_try_get does not spin.
   */
  lemma FreeIdBelowAllowed(s: State, k: Cpu, n: nat) returns (c: Cid)
    requires OwnershipInv(s) && NothingInFlight(s)
    requires k < |s.slots| && s.slots[k].Unset? && |Occupied(s) + {k}| <= n
    ensures c < n && IsFirstFree(s.bits, 0, c)
  {
    forall d ensures d in s.bits <==> exists j :: j in Occupied(s) && s.slots[j].cid == d {
      if d in s.bits {
        var h :| Held(s, h) == Some(d);
        assert h.AtSlot? && h.cpu in Occupied(s);
      }
      if j :| j in Occupied(s) && s.slots[j].cid == d { assert Held(s, AtSlot(j)) == Some(d); }
    }
    AsManyIdsAsSlots(s, s.bits, Occupied(s));
    assert k !in Occupied(s);
    assert |s.bits| < n;
    c := FirstFree(s.bits, n);
  }

  /** A set of fewer than `n` ids misses one below `n`. */
  lemma FirstFree(bits: set<Cid>, n: nat) returns (c: Cid)
    requires |bits| < n
    ensures c < n && IsFirstFree(bits, 0, c)
  {
    c := 0;
    while c in bits
      invariant forall d: Cid :: d < c ==> d in bits
      decreases |bits| - c
    {
      c := c + 1;
      SubsetSize(Upto(c), bits);
    }
    SubsetSize(Upto(c), bits);
  }

  lemma {:induction false} SubsetSize(a: set<nat>, b: set<nat>)
    requires a <= b
    ensures |a| <= |b|
  {
    if a != {} {
      var x :| x in a;
      SubsetSize(a - {x}, b - {x});
    }
  }
}
