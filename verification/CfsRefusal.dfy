/**
 What a refused bandwidth leaves behind on the legacy hierarchy. The walk writes as it goes down,
 so a refusal further down leaves the refused value in the group it was meant for; only a group
 that is refused itself, because the new quota exceeds the tightest one above it, changes nothing.
 */
module CfsRefusal {
  import opened Basics
  import opened GroupTree
  import opened TaskGroupWalk
  import opened CfsQuota

  function CheckVisit(norm: Id -> int, l: Links, t: Tree, s: Quotas): (int, Quotas) {
    Visit(t, CheckVisitor(false, norm, l.parent), NopVisitor(), s)
  }

  function CheckVisits(norm: Id -> int, l: Links, ts: seq<Tree>, s: Quotas): (int, Quotas) {
    VisitAll(ts, CheckVisitor(false, norm, l.parent), NopVisitor(), s)
  }

  /** Every group has the same hierarchical quota. */
  ghost predicate Same(s: Quotas, s': Quotas) {
    forall x :: Hier(s', x) == Hier(s, x)
  }

  /** The two differ at most in the quota of `tg`. */
  ghost predicate ButFor(norm: Id -> int, norm': Id -> int, tg: Id) {
    forall x :: x != tg ==> norm'(x) == norm(x)
  }

  // ---- Groups whose quotas did not change.

  lemma {:induction false} FitsAgree(norm: Id -> int, norm': Id -> int, tg: Id, ts: seq<Tree>, above: int)
    requires ButFor(norm, norm', tg) && tg !in IdsAll(ts)
    ensures FitsAll(false, norm, ts, above) <==> FitsAll(false, norm', ts, above)
    decreases ts
  {
    if ts != [] {
      FitsAgree(norm, norm', tg, ts[0].kids, Tighter(norm(ts[0].id), above));
      FitsAgree(norm, norm', tg, ts[1..], above);
    }
  }

  /** Settled quotas are determined. */
  lemma {:induction false} SettledUnique(norm: Id -> int, norm': Id -> int, tg: Id, ts: seq<Tree>, above: int, s: Quotas, s': Quotas)
    requires ButFor(norm, norm', tg) && tg !in IdsAll(ts)
    requires SettledAll(norm, ts, above, s) && SettledAll(norm', ts, above, s')
    ensures Agree(s, s', IdsAll(ts))
    decreases ts
  {
    if ts != [] {
      SettledUnique(norm, norm', tg, ts[0].kids, Hier(s, ts[0].id), s, s');
      SettledUnique(norm, norm', tg, ts[1..], above, s, s');
    }
  }

  lemma {:induction false} SettledAgree(norm: Id -> int, norm': Id -> int, tg: Id, ts: seq<Tree>, above: int, s: Quotas)
    requires ButFor(norm, norm', tg) && tg !in IdsAll(ts) && SettledAll(norm, ts, above, s)
    ensures SettledAll(norm', ts, above, s)
    decreases ts
  {
    if ts != [] {
      SettledAgree(norm, norm', tg, ts[0].kids, Hier(s, ts[0].id), s);
      SettledAgree(norm, norm', tg, ts[1..], above, s);
    }
  }

  lemma {:induction false} FitsLooser(norm: Id -> int, ts: seq<Tree>, a: int, b: int)
    requires FitsAll(false, norm, ts, a) && (b == -1 || (a != -1 && a <= b))
    ensures FitsAll(false, norm, ts, b)
    decreases ts
  {
    if ts != [] {
      FitsLooser(norm, ts[0].kids, Tighter(norm(ts[0].id), a), Tighter(norm(ts[0].id), b));
      FitsLooser(norm, ts[1..], a, b);
    }
  }

  /** Walking settled groups that are not concerned changes nothing. */
  lemma Unconcerned(norm: Id -> int, norm': Id -> int, tg: Id, l: Links, t: Tree, i: nat, s: Quotas)
    requires Linked(l, t) && i <= |t.kids| && DistinctAll(t.kids[i..]) && t.id !in IdsAll(t.kids[i..])
    requires ButFor(norm, norm', tg) && tg !in IdsAll(t.kids[i..])
    requires FitsAll(false, norm, t.kids[i..], Hier(s, t.id)) && SettledAll(norm, t.kids[i..], Hier(s, t.id), s)
    ensures var (r, s') := CheckVisits(norm', l, t.kids[i..], s); r == 0 && Same(s, s')
  {
    var ts, above := t.kids[i..], Hier(s, t.id);
    WalkSubtrees(false, norm', l, t, i, s);
    FitsAgree(norm, norm', tg, ts, above);
    var s' := CheckVisits(norm', l, ts, s).1;
    SettledUnique(norm, norm', tg, ts, above, s, s');
  }

  // ---- A walk, refused or not, writes only to the groups it visits.

  lemma {:induction false} WritesInside(norm: Id -> int, l: Links, t: Tree, s: Quotas, x: Id)
    requires x !in Ids(t)
    ensures Hier(CheckVisit(norm, l, t, s).1, x) == Hier(s, x)
    decreases t, 1
  {
    var (r, s1) := CheckVisitor(false, norm, l.parent)(t.id, s);
    if r == 0 { WritesInsideAll(norm, l, t.kids, s1, x); }
  }

  lemma {:induction false} WritesInsideAll(norm: Id -> int, l: Links, ts: seq<Tree>, s: Quotas, x: Id)
    requires x !in IdsAll(ts)
    ensures Hier(CheckVisits(norm, l, ts, s).1, x) == Hier(s, x)
    decreases ts, 0
  {
    if ts != [] {
      WritesInside(norm, l, ts[0], s, x);
      WritesInsideAll(norm, l, ts[1..], CheckVisit(norm, l, ts[0], s).1, x);
    }
  }

  // ---- The refusal.

  predicate Exceeds(quota: int, limit: int) {
    quota != -1 && limit != -1 && quota > limit
  }

  /** The path to the group concerned. */
  ghost predicate LeadsTo(p: seq<Tree>, tg: Id) {
    IsPath(p) && p[|p| - 1].id == tg
  }

  /** The tightest quota above the last group of the path. */
  function Limit(norm: Id -> int, p: seq<Tree>, above: int): int
    requires p != []
  {
    TightestAlong(norm, p[..|p| - 1], above)
  }

  /** A refused walk changes nothing, or leaves the refused quota in the group concerned. */
  ghost predicate Outcome(quota: int, limit: int, tg: Id, s: Quotas, s': Quotas) {
    if Exceeds(quota, limit) then Same(s, s')
    else quota != -1 && Hier(s', tg) == quota && Hier(s, tg) != quota
  }

  /** The group itself: it is refused, or one of its descendants is. */
  lemma RefusedAt(norm: Id -> int, norm': Id -> int, l: Links, t: Tree, up: Id, s: Quotas)
    requires Linked(l, t) && Distinct(t) && l.parent(t.id) == Some(up) && up !in Ids(t) && ButFor(norm, norm', t.id)
    requires Fits(false, norm, t, Hier(s, up)) && Settled(norm, t, Hier(s, up), s)
    requires CheckVisit(norm', l, t, s).0 != 0
    ensures Outcome(norm'(t.id), Hier(s, up), t.id, s, CheckVisit(norm', l, t, s).1)
  {
    var above, quota := Hier(s, up), norm'(t.id);
    var (r, s1) := CheckVisitor(false, norm', l.parent)(t.id, s);
    if r == 0 {
      assert t.kids[0..] == t.kids;
      WalkSubtrees(false, norm', l, t, 0, s1);
      FitsAgree(norm, norm', t.id, t.kids, Hier(s1, t.id));
      if quota == -1 || quota == Hier(s, t.id) { FitsLooser(norm, t.kids, Hier(s, t.id), Hier(s1, t.id)); }
      WritesInsideAll(norm', l, t.kids, s1, t.id);
    }
  }

  lemma {:induction false} IdsOnPath(p: seq<Tree>, tg: Id)
    requires LeadsTo(p, tg)
    ensures tg in Ids(p[0]) && (|p| > 1 ==> tg in IdsAll(p[0].kids) && tg in Ids(p[1]))
  {
    if |p| > 1 {
      IdsOnPath(p[1..], tg);
      KidIds(p[0].kids, p[1]);
    }
  }

  lemma {:induction false} KidIds(ts: seq<Tree>, t: Tree)
    requires t in ts
    ensures Ids(t) <= IdsAll(ts)
  {
    if t != ts[0] { KidIds(ts[1..], t); }
  }

  /** Every group below the root has such a path. */
  lemma {:induction false} PathTo(ts: seq<Tree>, tg: Id) returns (p: seq<Tree>)
    requires tg in IdsAll(ts)
    ensures LeadsTo(p, tg) && p[0] in ts
    decreases ts
  {
    if tg == ts[0].id {
      p := [ts[0]];
    } else if tg in IdsAll(ts[0].kids) {
      p := PathTo(ts[0].kids, tg);
      p := [ts[0]] + p;
    } else {
      p := PathTo(ts[1..], tg);
    }
  }

  lemma {:induction false} RefusedBelow(norm: Id -> int, norm': Id -> int, tg: Id, l: Links, t: Tree, up: Id, p: seq<Tree>, s: Quotas)
    requires Linked(l, t) && Distinct(t) && l.parent(t.id) == Some(up) && up !in Ids(t)
    requires ButFor(norm, norm', tg) && LeadsTo(p, tg) && p[0] == t
    requires Fits(false, norm, t, Hier(s, up)) && Settled(norm, t, Hier(s, up), s)
    requires CheckVisit(norm', l, t, s).0 != 0
    ensures Outcome(norm'(tg), Limit(norm, p, Hier(s, up)), tg, s, CheckVisit(norm', l, t, s).1)
    decreases t, 1
  {
    if |p| == 1 {
      RefusedAt(norm, norm', l, t, up, s);
    } else {
      IdsOnPath(p, tg);
      var (r, s1) := CheckVisitor(false, norm', l.parent)(t.id, s);
      assert r == 0 && Same(s, s1);
      assert t.kids[0..] == t.kids;
      SettledFrameAll(norm, t.kids, Hier(s, t.id), s, s1);
      RefusedAmong(norm, norm', tg, l, t, 0, p[1..], s1);
      assert p[..|p| - 1][1..] == p[1..][..|p| - 2];
    }
  }

  lemma {:induction false} RefusedAmong(norm: Id -> int, norm': Id -> int, tg: Id, l: Links, t: Tree, i: nat, p: seq<Tree>, s: Quotas)
    requires Linked(l, t) && i <= |t.kids| && DistinctAll(t.kids[i..]) && t.id !in IdsAll(t.kids[i..])
    requires ButFor(norm, norm', tg) && LeadsTo(p, tg) && p[0] in t.kids[i..]
    requires FitsAll(false, norm, t.kids[i..], Hier(s, t.id)) && SettledAll(norm, t.kids[i..], Hier(s, t.id), s)
    requires CheckVisits(norm', l, t.kids[i..], s).0 != 0
    ensures Outcome(norm'(tg), Limit(norm, p, Hier(s, t.id)), tg, s, CheckVisits(norm', l, t.kids[i..], s).1)
    decreases t, 0, |t.kids| - i
  {
    var ts := t.kids[i..];
    assert ts[0] == t.kids[i] && ts[1..] == t.kids[i + 1..];
    assert KidLinked(l, t, i);
    IdsOnPath(p, tg);
    if p[0] == ts[0] {
      if CheckVisit(norm', l, ts[0], s).0 != 0 {
        RefusedBelow(norm, norm', tg, l, ts[0], t.id, p, s);
      } else {
        OthersPass(norm, norm', tg, l, t, i, s);
      }
    } else {
      KidIds(ts[1..], p[0]);
      FirstPasses(norm, norm', tg, l, t, i, s);
      var s1 := CheckVisit(norm', l, ts[0], s).1;
      SettledFrameAll(norm, ts[1..], Hier(s, t.id), s, s1);
      RefusedAmong(norm, norm', tg, l, t, i + 1, p, s1);
    }
  }

  /** A child that does not hold the group concerned passes unchanged. */
  lemma FirstPasses(norm: Id -> int, norm': Id -> int, tg: Id, l: Links, t: Tree, i: nat, s: Quotas)
    requires Linked(l, t) && i < |t.kids| && DistinctAll(t.kids[i..]) && t.id !in IdsAll(t.kids[i..])
    requires ButFor(norm, norm', tg) && tg !in Ids(t.kids[i])
    requires FitsAll(false, norm, t.kids[i..], Hier(s, t.id)) && SettledAll(norm, t.kids[i..], Hier(s, t.id), s)
    ensures var (r, s') := CheckVisit(norm', l, t.kids[i], s); r == 0 && Same(s, s')
  {
    var k, above := t.kids[i], Hier(s, t.id);
    assert t.kids[i..][0] == k && KidLinked(l, t, i);
    assert IdsAll([k]) == Ids(k) && [k][0] == k && [k][1..] == [];
    WalkSubtree(false, norm', l, k, t.id, s);
    FitsAgree(norm, norm', tg, [k], above);
    SettledUnique(norm, norm', tg, [k], above, s, CheckVisit(norm', l, k, s).1);
  }

  /** If the child with the group concerned passes, so do the ones after it. */
  lemma OthersPass(norm: Id -> int, norm': Id -> int, tg: Id, l: Links, t: Tree, i: nat, s: Quotas)
    requires Linked(l, t) && i < |t.kids| && DistinctAll(t.kids[i..]) && t.id !in IdsAll(t.kids[i..])
    requires ButFor(norm, norm', tg) && tg in Ids(t.kids[i])
    requires FitsAll(false, norm, t.kids[i..], Hier(s, t.id)) && SettledAll(norm, t.kids[i..], Hier(s, t.id), s)
    requires CheckVisit(norm', l, t.kids[i], s).0 == 0
    ensures CheckVisits(norm', l, t.kids[i..], s).0 == 0
  {
    var ts := t.kids[i..];
    assert ts[0] == t.kids[i] && ts[1..] == t.kids[i + 1..] && KidLinked(l, t, i);
    WalkSubtree(false, norm', l, ts[0], t.id, s);
    var s1 := CheckVisit(norm', l, ts[0], s).1;
    SettledFrameAll(norm, ts[1..], Hier(s, t.id), s, s1);
    Unconcerned(norm, norm', tg, l, t, i + 1, s1);
  }

  /** The quotas in force: settled for these limits, which are nested. */
  predicate InForce(norm: Id -> int, root: Tree, s: Quotas) {
    Hier(s, root.id) == -1 && SettledAll(norm, root.kids, -1, s) && FitsAll(false, norm, root.kids, -1)
  }

  /**
   From quotas in force, a refused change of one group's limit leaves every hierarchical quota as
   it was iff the new quota exceeds the tightest one above the group. Otherwise a descendant was
   refused, and the group carries the refused quota.
   */
  lemma RefusedWalk(norm: Id -> int, norm': Id -> int, tg: Id, l: Links, root: Tree, p: seq<Tree>, s: Quotas)
    requires Linked(l, root) && Distinct(root) && l.parent(root.id) == None
    requires ButFor(norm, norm', tg) && LeadsTo(p, tg) && p[0] in root.kids && InForce(norm, root, s)
    requires CheckVisit(norm', l, root, s).0 != 0
    ensures var s' := CheckVisit(norm', l, root, s).1;
      && (Same(s, s') <==> Exceeds(norm'(tg), Limit(norm, p, -1)))
      && (!Same(s, s') ==> norm'(tg) != -1 && Hier(s', tg) == norm'(tg) && Hier(s, tg) != norm'(tg))
  {
    var (r, s1) := CheckVisitor(false, norm', l.parent)(root.id, s);
    assert Same(s, s1) && root.kids[0..] == root.kids;
    SettledFrameAll(norm, root.kids, -1, s, s1);
    RefusedAmong(norm, norm', tg, l, root, 0, p, s1);
  }

  /** Root, group 1 and its child 2. */
  const CHAIN: Tree := Node(0, [Node(1, [Node(2, [])])])

  function ChainParent(): Id -> Option<Id> {
    id => if id == 2 then Some(1) else if id == 1 then Some(0) else None
  }

  function ChainNorm(n1: int, n2: int): Id -> int {
    id => if id == 1 then n1 else if id == 2 then n2 else -1
  }

  /** Whatever the quotas: a new one for group 1 that is below its child's is refused at the child, and stays. */
  lemma RefusedAtChild(old1: int, n1: int, n2: int)
    requires 0 < n1 < n2 <= old1
    ensures Visit(CHAIN, CheckVisitor(false, ChainNorm(n1, n2), ChainParent()), NopVisitor(), map[0 := -1, 1 := old1, 2 := n2])
      == (-EINVAL, map[0 := -1, 1 := n1, 2 := n2])
  {
    var t1, t2 := Node(1, [Node(2, [])]), Node(2, []);
    var f := CheckVisitor(false, ChainNorm(n1, n2), ChainParent());
    var s: Quotas := map[0 := -1, 1 := old1, 2 := n2];
    var s0 := s[0 := -1];
    var s1 := s0[1 := n1];
    assert f(0, s) == (0, s0) && f(1, s0) == (0, s1) && f(2, s1) == (-EINVAL, s1);
    assert Visit(t2, f, NopVisitor(), s1) == (-EINVAL, s1);
    assert VisitAll([t2], f, NopVisitor(), s1) == (-EINVAL, s1);
    assert Visit(t1, f, NopVisitor(), s0) == (-EINVAL, s1);
    assert VisitAll([t1], f, NopVisitor(), s0) == (-EINVAL, s1);
    assert s1 == map[0 := -1, 1 := n1, 2 := n2];
  }

  /** 100 ms, 80 ms and 50 ms in every 100 ms. */
  const FULL := Bandwidth(100_000_000, 100_000_000)
  const MOST := Bandwidth(100_000_000, 80_000_000)
  const HALF := Bandwidth(100_000_000, 50_000_000)

  lemma ThreeBandwidths()
    ensures Accepted(FULL, 0) && Accepted(MOST, 0) && Accepted(HALF, 0)
    ensures Normalize(FULL) == 1048576 && Normalize(MOST) == 838860 && Normalize(HALF) == 524288
  {
    AcceptedIsExact(FULL, 0);
    AcceptedIsExact(MOST, 0);
    AcceptedIsExact(HALF, 0);
  }

  /** Group 1 has 100 ms and its child 80 ms of every 100 ms; 50 ms for group 1 is accepted as such, refused by the walk, and stays. */
  lemma RefusedQuotaStays()
    ensures Accepted(FULL, 0) && Accepted(MOST, 0) && Accepted(HALF, 0)
    ensures InForce(ChainNorm(Normalize(FULL), Normalize(MOST)), CHAIN, map[0 := -1, 1 := Normalize(FULL), 2 := Normalize(MOST)])
    ensures var check := CheckVisitor(false, ChainNorm(Normalize(HALF), Normalize(MOST)), ChainParent());
      var (r, s') := Visit(CHAIN, check, NopVisitor(), map[0 := -1, 1 := Normalize(FULL), 2 := Normalize(MOST)]);
      r == -EINVAL && Hier(s', 1) == Normalize(HALF) != Normalize(FULL)
  {
    ThreeBandwidths();
    RefusedAtChild(Normalize(FULL), Normalize(HALF), Normalize(MOST));
  }
}
