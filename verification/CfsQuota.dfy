/**
 The CFS bandwidth feasibility check: normalized quotas, the check made at each task group on
 the way down the tree, and what a successful walk establishes for the whole hierarchy.
 */
module CfsQuota {
  import opened Basics
  import opened GroupTree
  import opened TaskGroupWalk

  const TWO64: nat := 0x1_0000_0000_0000_0000
  const TWO63: nat := 0x8000_0000_0000_0000
  const RUNTIME_INF: nat := TWO64 - 1
  const BW_UNIT: nat := 0x10_0000                       // 1 << BW_SHIFT, BW_SHIFT is 20
  const MAX_BW: nat := 0x1000_0000_0000 - 1             // (1 << (64 - BW_SHIFT)) - 1
  const NSEC_PER_USEC: nat := 1000
  const MIN_PERIOD: nat := 1_000_000
  const MAX_PERIOD: nat := 1_000_000_000
  const MAX_RUNTIME: nat := MAX_BW * NSEC_PER_USEC
  const EINVAL: int := 22

  /** A u64 stored into an s64. RUNTIME_INF becomes -1. */
  function ToS64(u: nat): int {
    if u % TWO64 < TWO63 then u % TWO64 else u % TWO64 - TWO64
  }

  /** to_ratio, with the shift done in 64 bits */
  function ToRatio(period: nat, runtime: nat): nat {
    if runtime == RUNTIME_INF then BW_UNIT
    else if period == 0 then 0
    else runtime * BW_UNIT % TWO64 / period
  }

  /** Period and quota of a group in nanoseconds. */
  datatype Bandwidth = Bandwidth(period: nat, quota: nat)

  /** The range checks of tg_set_cfs_bandwidth. */
  predicate Accepted(b: Bandwidth, burst: nat) {
    && MIN_PERIOD <= b.quota && MIN_PERIOD <= b.period <= MAX_PERIOD
    && (b.quota != RUNTIME_INF ==> b.quota <= MAX_RUNTIME && burst <= b.quota && (burst + b.quota) % TWO64 <= MAX_RUNTIME)
  }

  /** normalize_cfs_quota as stored in an s64: -1 is "no limit". */
  function Normalize(b: Bandwidth): int {
    if b.quota == RUNTIME_INF then ToS64(RUNTIME_INF)
    else ToS64(ToRatio(b.period / NSEC_PER_USEC, b.quota / NSEC_PER_USEC))
  }

  /** The shift in to_ratio fits 64 bits exactly for quotas up to MAX_BW microseconds. */
  lemma ShiftFits(quota: nat)
    ensures quota / NSEC_PER_USEC * BW_UNIT < TWO64 <==> quota / NSEC_PER_USEC <= MAX_BW
  {
  }

  /** For every accepted bandwidth the ratio is the exact quotient, and is not mistaken for "no limit". */
  lemma AcceptedIsExact(b: Bandwidth, burst: nat)
    requires Accepted(b, burst) && b.quota != RUNTIME_INF
    ensures Normalize(b) == b.quota / NSEC_PER_USEC * BW_UNIT / (b.period / NSEC_PER_USEC)
    ensures 0 < Normalize(b) < TWO63
  {
    MicrosecondBounds(b);
    RatioIsExact(b.period / NSEC_PER_USEC, b.quota / NSEC_PER_USEC);
  }

  /** Share of a CPU in units of 1 / BW_UNIT, from microseconds. */
  function Share(b: Bandwidth): int
    requires b.period >= NSEC_PER_USEC
  {
    b.quota / NSEC_PER_USEC * BW_UNIT / (b.period / NSEC_PER_USEC)
  }

  /** An accepted bandwidth normalizes to "no limit" iff it has none, and to its share otherwise. */
  lemma NormalizedIff(b: Bandwidth, burst: nat)
    requires Accepted(b, burst)
    ensures Normalize(b) == -1 <==> b.quota == RUNTIME_INF
    ensures b.quota != RUNTIME_INF ==> Normalize(b) == Share(b) > 0
  {
    if b.quota != RUNTIME_INF { AcceptedIsExact(b, burst); }
  }

  /** What is accepted with some burst is accepted without. */
  lemma AcceptedWithoutBurst(b: Bandwidth, burst: nat)
    requires Accepted(b, burst)
    ensures Accepted(b, 0)
  {
  }

  lemma RatioIsExact(p: nat, q: nat)
    requires 1000 <= p <= 1_000_000 && 1000 <= q <= MAX_BW
    ensures ToS64(ToRatio(p, q)) == q * BW_UNIT / p && 0 < q * BW_UNIT / p < TWO63
  {
    var n: nat := q * BW_UNIT;
    QuotientBounds(n, p);
    assert n % TWO64 == n;
    Stays(n / p);
  }

  lemma Stays(u: nat)
    requires u < TWO63
    ensures ToS64(u) == u
  {
  }

  lemma MicrosecondBounds(b: Bandwidth)
    requires MIN_PERIOD <= b.quota <= MAX_RUNTIME && MIN_PERIOD <= b.period <= MAX_PERIOD
    ensures 1000 <= b.period / NSEC_PER_USEC <= 1_000_000
    ensures 1000 <= b.quota / NSEC_PER_USEC <= MAX_BW
  {
  }

  lemma QuotientBounds(n: nat, p: nat)
    requires 1000 <= p <= 1_000_000 && 1000 * BW_UNIT <= n < TWO64
    ensures 0 < n / p < TWO63
  {
    assert n == n / p * p + n % p;
  }

  // ---- The check at one group.

  type Quotas = map<Id, int>        // hierarchical_quota of every group

  function Hier(s: Quotas, id: Id): int {
    if id in s then s[id] else -1
  }

  /** tg_cfs_schedulable_down; `v2` is cgroup_subsys_on_dfl. */
  function CheckDown(v2: bool, norm: Id -> int, parent: Id -> Option<Id>, id: Id, s: Quotas): (int, Quotas) {
    if parent(id).None? then (0, s[id := -1]) else
    var quota, above := norm(id), Hier(s, parent(id).value);
    if quota == -1 then (0, s[id := above])
    else if v2 then (0, s[id := if above != -1 && above < quota then above else quota])
    else if above != -1 && quota > above then (-EINVAL, s)
    else (0, s[id := quota])
  }

  function CheckVisitor(v2: bool, norm: Id -> int, parent: Id -> Option<Id>): Visitor<Quotas> {
    (id, s) => CheckDown(v2, norm, parent, id, s)
  }

  /** tg_nop */
  function NopVisitor(): Visitor<Quotas> {
    (id, s) => (0, s)
  }

  // ---- What the walk establishes.

  /** The smaller of two limits, -1 being none. */
  function Tighter(a: int, b: int): int {
    if a == -1 then b else if b == -1 || a <= b then a else b
  }

  /** Every group of the subtree carries the tightest of its own limit and its parent's. */
  predicate Settled(norm: Id -> int, t: Tree, above: int, s: Quotas)
    decreases t, 1
  {
    Hier(s, t.id) == Tighter(norm(t.id), above) && SettledAll(norm, t.kids, Hier(s, t.id), s)
  }

  predicate SettledAll(norm: Id -> int, ts: seq<Tree>, above: int, s: Quotas)
    decreases ts, 0
  {
    ts != [] ==> Settled(norm, ts[0], above, s) && SettledAll(norm, ts[1..], above, s)
  }

  /** On the legacy hierarchy no limit may exceed the one inherited from above. */
  predicate Fits(v2: bool, norm: Id -> int, t: Tree, above: int)
    decreases t, 1
  {
    && (v2 || norm(t.id) == -1 || above == -1 || norm(t.id) <= above)
    && FitsAll(v2, norm, t.kids, Tighter(norm(t.id), above))
  }

  predicate FitsAll(v2: bool, norm: Id -> int, ts: seq<Tree>, above: int)
    decreases ts, 0
  {
    ts != [] ==> Fits(v2, norm, ts[0], above) && FitsAll(v2, norm, ts[1..], above)
  }

  ghost predicate Agree(s: Quotas, s': Quotas, ids: set<Id>) {
    forall x :: x in ids ==> Hier(s', x) == Hier(s, x)
  }

  lemma {:induction false} SettledFrame(norm: Id -> int, t: Tree, above: int, s: Quotas, s': Quotas)
    requires Settled(norm, t, above, s) && Agree(s, s', Ids(t))
    ensures Settled(norm, t, above, s')
    decreases t, 1
  {
    SettledFrameAll(norm, t.kids, Hier(s, t.id), s, s');
  }

  lemma {:induction false} SettledFrameAll(norm: Id -> int, ts: seq<Tree>, above: int, s: Quotas, s': Quotas)
    requires SettledAll(norm, ts, above, s) && Agree(s, s', IdsAll(ts))
    ensures SettledAll(norm, ts, above, s')
    decreases ts, 0
  {
    if ts != [] {
      SettledFrame(norm, ts[0], above, s, s');
      SettledFrameAll(norm, ts[1..], above, s, s');
    }
  }

  /** The walk of a subtree below group `up`: succeeds iff every limit fits, and settles it. */
  lemma {:induction false} WalkSubtree(v2: bool, norm: Id -> int, l: Links, t: Tree, up: Id, s: Quotas)
    requires Linked(l, t) && Distinct(t) && l.parent(t.id) == Some(up) && up !in Ids(t)
    ensures var (r, s') := Visit(t, CheckVisitor(v2, norm, l.parent), NopVisitor(), s);
      && (r == 0 <==> Fits(v2, norm, t, Hier(s, up)))
      && (r == 0 ==> Settled(norm, t, Hier(s, up), s') && forall x :: x !in Ids(t) ==> Hier(s', x) == Hier(s, x))
    decreases t, 1
  {
    var down := CheckVisitor(v2, norm, l.parent);
    var (r, s1) := down(t.id, s);
    if r == 0 {
      assert Hier(s1, t.id) == Tighter(norm(t.id), Hier(s, up));
      WalkSubtrees(v2, norm, l, t, 0, s1);
      assert t.kids[0..] == t.kids;
    }
  }

  lemma {:induction false} WalkSubtrees(v2: bool, norm: Id -> int, l: Links, t: Tree, i: nat, s: Quotas)
    requires Linked(l, t) && i <= |t.kids| && DistinctAll(t.kids[i..]) && t.id !in IdsAll(t.kids[i..])
    ensures var (r, s') := VisitAll(t.kids[i..], CheckVisitor(v2, norm, l.parent), NopVisitor(), s);
      && (r == 0 <==> FitsAll(v2, norm, t.kids[i..], Hier(s, t.id)))
      && (r == 0 ==> SettledAll(norm, t.kids[i..], Hier(s, t.id), s')
                     && forall x :: x !in IdsAll(t.kids[i..]) ==> Hier(s', x) == Hier(s, x))
    decreases t, 0, |t.kids| - i
  {
    if i < |t.kids| {
      var ts := t.kids[i..];
      assert ts[0] == t.kids[i] && ts[1..] == t.kids[i + 1..];
      assert KidLinked(l, t, i);
      WalkSubtree(v2, norm, l, ts[0], t.id, s);
      var (r, s1) := Visit(ts[0], CheckVisitor(v2, norm, l.parent), NopVisitor(), s);
      if r == 0 {
        WalkSubtrees(v2, norm, l, t, i + 1, s1);
        var (r2, s2) := VisitAll(ts[1..], CheckVisitor(v2, norm, l.parent), NopVisitor(), s1);
        if r2 == 0 { SettledFrame(norm, ts[0], Hier(s, t.id), s1, s2); }
      }
    }
  }

  /** The whole hierarchy, from the root group. */
  lemma WalkHierarchy(v2: bool, norm: Id -> int, l: Links, root: Tree, s: Quotas)
    requires Linked(l, root) && Distinct(root) && l.parent(root.id) == None
    ensures var (r, s') := Visit(root, CheckVisitor(v2, norm, l.parent), NopVisitor(), s);
      && (r == 0 <==> FitsAll(v2, norm, root.kids, -1))
      && (r == 0 ==> Hier(s', root.id) == -1 && SettledAll(norm, root.kids, -1, s'))
  {
    var (r, s1) := CheckVisitor(v2, norm, l.parent)(root.id, s);
    assert root.kids[0..] == root.kids;
    WalkSubtrees(v2, norm, l, root, 0, s1);
  }

  // ---- Closed forms along paths.

  /** A path downwards: each group is a child of the one before. */
  ghost predicate IsPath(p: seq<Tree>) {
    |p| > 0 && forall i :: 0 <= i < |p| - 1 ==> p[i + 1] in p[i].kids
  }

  /** The tightest limit among `above` and the groups of a path. */
  function TightestAlong(norm: Id -> int, p: seq<Tree>, above: int): int {
    if p == [] then above else TightestAlong(norm, p[1..], Tighter(norm(p[0].id), above))
  }

  /** It is the minimum of the finite ones, and -1 iff there are none. */
  lemma {:induction false} TightestIsMinimum(norm: Id -> int, p: seq<Tree>, above: int)
    ensures var m := TightestAlong(norm, p, above);
      && (m == -1 <==> above == -1 && forall i :: 0 <= i < |p| ==> norm(p[i].id) == -1)
      && (m != -1 ==> (above == -1 || m <= above) && forall i :: 0 <= i < |p| && norm(p[i].id) != -1 ==> m <= norm(p[i].id))
      && (m != -1 ==> m == above || exists i :: 0 <= i < |p| && m == norm(p[i].id))
  {
    if p != [] {
      var a := Tighter(norm(p[0].id), above);
      TightestIsMinimum(norm, p[1..], a);
      var m := TightestAlong(norm, p, above);
      assert forall i :: 0 <= i < |p| ==> p[i] == if i == 0 then p[0] else p[1..][i - 1];
      if m != -1 && m != above {
        if m == a { assert m == norm(p[0].id); } else {
          var i :| 0 <= i < |p| - 1 && m == norm(p[1..][i].id);
          assert m == norm(p[i + 1].id);
        }
      }
    }
  }

  lemma {:induction false} SettledKid(norm: Id -> int, ts: seq<Tree>, above: int, s: Quotas, t: Tree)
    requires SettledAll(norm, ts, above, s) && t in ts
    ensures Settled(norm, t, above, s)
  {
    if t != ts[0] { SettledKid(norm, ts[1..], above, s, t); }
  }

  lemma {:induction false} SettledAlong(norm: Id -> int, p: seq<Tree>, above: int, s: Quotas)
    requires IsPath(p) && Settled(norm, p[0], above, s)
    ensures Hier(s, p[|p| - 1].id) == TightestAlong(norm, p, above)
  {
    if |p| > 1 {
      SettledKid(norm, p[0].kids, Hier(s, p[0].id), s, p[1]);
      SettledAlong(norm, p[1..], Hier(s, p[0].id), s);
    }
  }

  /**
   After a successful check the hierarchical quota of every group below the root is the minimum
   of the finite normalized quotas on its path from the root, and "no limit" if there are none.
   */
  lemma SuccessGivesPathMinimum(v2: bool, norm: Id -> int, l: Links, root: Tree, s: Quotas, p: seq<Tree>)
    requires Linked(l, root) && Distinct(root) && l.parent(root.id) == None
    requires IsPath(p) && p[0] in root.kids
    requires Visit(root, CheckVisitor(v2, norm, l.parent), NopVisitor(), s).0 == 0
    ensures Hier(Visit(root, CheckVisitor(v2, norm, l.parent), NopVisitor(), s).1, p[|p| - 1].id) == TightestAlong(norm, p, -1)
  {
    WalkHierarchy(v2, norm, l, root, s);
    var s' := Visit(root, CheckVisitor(v2, norm, l.parent), NopVisitor(), s).1;
    SettledKid(norm, root.kids, -1, s', p[0]);
    SettledAlong(norm, p, -1, s');
  }

  /** On the unified hierarchy the check never fails. */
  lemma UnifiedAlwaysSucceeds(norm: Id -> int, l: Links, root: Tree, s: Quotas)
    requires Linked(l, root) && Distinct(root) && l.parent(root.id) == None
    ensures Visit(root, CheckVisitor(true, norm, l.parent), NopVisitor(), s).0 == 0
  {
    WalkHierarchy(true, norm, l, root, s);
    UnifiedFits(norm, root.kids, -1);
  }

  lemma {:induction false} UnifiedFits(norm: Id -> int, ts: seq<Tree>, above: int)
    ensures FitsAll(true, norm, ts, above)
  {
    if ts != [] {
      UnifiedFits(norm, ts[0].kids, Tighter(norm(ts[0].id), above));
      UnifiedFits(norm, ts[1..], above);
    }
  }

  /** Along the path, no finite limit exceeds `above` or a finite limit further up. */
  ghost predicate Nested(norm: Id -> int, p: seq<Tree>, above: int) {
    && (forall i :: 0 <= i < |p| && norm(p[i].id) != -1 && above != -1 ==> norm(p[i].id) <= above)
    && (forall i, j :: 0 <= i < j < |p| && norm(p[i].id) != -1 && norm(p[j].id) != -1 ==> norm(p[j].id) <= norm(p[i].id))
  }

  lemma {:induction false} FitsKid(norm: Id -> int, ts: seq<Tree>, above: int, t: Tree)
    requires FitsAll(false, norm, ts, above) && t in ts
    ensures Fits(false, norm, t, above)
  {
    if t != ts[0] { FitsKid(norm, ts[1..], above, t); }
  }

  lemma {:induction false} FitsGivesNested(norm: Id -> int, p: seq<Tree>, above: int)
    requires IsPath(p) && Fits(false, norm, p[0], above)
    ensures Nested(norm, p, above)
  {
    if |p| > 1 {
      var a := Tighter(norm(p[0].id), above);
      FitsKid(norm, p[0].kids, a, p[1]);
      FitsGivesNested(norm, p[1..], a);
      assert forall i :: 0 < i < |p| ==> p[i] == p[1..][i - 1];
      forall i | 0 < i < |p| && norm(p[i].id) != -1 && a != -1 ensures norm(p[i].id) <= a {
        assert norm(p[1..][i - 1].id) <= a;
      }
      forall i, j | 0 < i < j < |p| && norm(p[i].id) != -1 && norm(p[j].id) != -1 ensures norm(p[j].id) <= norm(p[i].id) {
        assert norm(p[1..][j - 1].id) <= norm(p[1..][i - 1].id);
      }
    }
  }

  lemma {:induction false} NestedGivesFits(norm: Id -> int, t: Tree, above: int)
    requires forall p: seq<Tree> :: IsPath(p) && p[0] == t ==> Nested(norm, p, above)
    ensures Fits(false, norm, t, above)
    decreases t, 1
  {
    assert IsPath([t]) && [t][0] == t;
    assert Nested(norm, [t], above);
    var a := Tighter(norm(t.id), above);
    forall p: seq<Tree> | IsPath(p) && p[0] in t.kids ensures Nested(norm, p, a) {
      var q := [t] + p;
      assert forall i :: 0 <= i < |p| ==> q[i + 1] == p[i];
      assert IsPath(q) && q[0] == t;
      assert Nested(norm, q, above);
      forall i | 0 <= i < |p| && norm(p[i].id) != -1 && a != -1 ensures norm(p[i].id) <= a {
        assert norm(q[i + 1].id) != -1;
      }
      forall i, j | 0 <= i < j < |p| && norm(p[i].id) != -1 && norm(p[j].id) != -1 ensures norm(p[j].id) <= norm(p[i].id) {
        assert norm(q[j + 1].id) <= norm(q[i + 1].id);
      }
    }
    NestedGivesFitsAll(norm, t, 0, a);
    assert t.kids[0..] == t.kids;
  }

  lemma {:induction false} NestedGivesFitsAll(norm: Id -> int, t: Tree, i: nat, above: int)
    requires i <= |t.kids|
    requires forall p: seq<Tree> :: IsPath(p) && p[0] in t.kids ==> Nested(norm, p, above)
    ensures FitsAll(false, norm, t.kids[i..], above)
    decreases t, 0, |t.kids| - i
  {
    if i < |t.kids| {
      assert t.kids[i..][1..] == t.kids[i + 1..];
      NestedGivesFits(norm, t.kids[i], above);
      NestedGivesFitsAll(norm, t, i + 1, above);
    }
  }

  /** On the legacy hierarchy the check succeeds iff no finite quota exceeds a finite quota of an ancestor. */
  lemma LegacySucceedsIffNested(norm: Id -> int, l: Links, root: Tree, s: Quotas)
    requires Linked(l, root) && Distinct(root) && l.parent(root.id) == None
    ensures Visit(root, CheckVisitor(false, norm, l.parent), NopVisitor(), s).0 == 0 <==>
      forall p: seq<Tree> :: IsPath(p) && p[0] in root.kids ==> Nested(norm, p, -1)
  {
    WalkHierarchy(false, norm, l, root, s);
    if FitsAll(false, norm, root.kids, -1) {
      forall p: seq<Tree> | IsPath(p) && p[0] in root.kids ensures Nested(norm, p, -1) {
        FitsKid(norm, root.kids, -1, p[0]);
        FitsGivesNested(norm, p, -1);
      }
    }
    if forall p: seq<Tree> :: IsPath(p) && p[0] in root.kids ==> Nested(norm, p, -1) {
      NestedGivesFitsAll(norm, root, 0, -1);
      assert root.kids[0..] == root.kids;
    }
  }
}
