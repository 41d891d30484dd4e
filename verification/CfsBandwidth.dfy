/**
 Setting the bandwidth of a task group: range tests, the walk over the hierarchy with the new value
 in place, and the store. Both outcomes of the walk are stated, with what a refusal leaves behind.
 */
module CfsBandwidth {
  import opened Basics
  import opened GroupTree
  import opened TaskGroupWalk
  import opened CfsQuota
  import opened CfsRefusal

  /** The limits of the stored bandwidths. */
  function NormOf(bw: map<Id, Bandwidth>): Id -> int {
    id => if id in bw then Normalize(bw[id]) else -1
  }

  /** The quotas the check compares: the new one for `tg`, the stored ones otherwise. */
  function NormWith(bw: map<Id, Bandwidth>, tg: Id, b: Bandwidth): Id -> int {
    id => if id == tg then Normalize(b) else if id in bw then Normalize(bw[id]) else -1
  }

  ghost predicate AllAccepted(bw: map<Id, Bandwidth>) {
    forall id :: id in bw ==> Accepted(bw[id], 0)
  }

  function ShareIn(bw: map<Id, Bandwidth>, id: Id): int {
    if id in bw && bw[id].period >= NSEC_PER_USEC then Share(bw[id]) else 0
  }

  predicate Limited(bw: map<Id, Bandwidth>, id: Id) {
    id in bw && bw[id].quota != RUNTIME_INF
  }

  /** No group of the path has a quota. */
  ghost predicate Unlimited(bw: map<Id, Bandwidth>, p: seq<Tree>) {
    forall i :: 0 <= i < |p| ==> !Limited(bw, p[i].id)
  }

  /** `m` is the smallest share that a quota on the path leaves. */
  ghost predicate SmallestShare(bw: map<Id, Bandwidth>, p: seq<Tree>, m: int) {
    && (forall i :: 0 <= i < |p| && Limited(bw, p[i].id) ==> m <= ShareIn(bw, p[i].id))
    && (exists i :: 0 <= i < |p| && Limited(bw, p[i].id) && ShareIn(bw, p[i].id) == m)
  }

  /** The hierarchical quota of the last group of the path, in terms of the bandwidths. */
  ghost predicate IsPathShare(bw: map<Id, Bandwidth>, p: seq<Tree>, m: int) {
    if m == -1 then Unlimited(bw, p) else !Unlimited(bw, p) && SmallestShare(bw, p, m)
  }

  /** No quota of the path leaves a larger share than one further up. */
  ghost predicate NestedShares(bw: map<Id, Bandwidth>, p: seq<Tree>) {
    forall i, j :: 0 <= i < j < |p| && Limited(bw, p[i].id) && Limited(bw, p[j].id) ==> ShareIn(bw, p[j].id) <= ShareIn(bw, p[i].id)
  }

  /** The limits the walk compares are those of the bandwidths. */
  ghost predicate LimitsOf(bw: map<Id, Bandwidth>, norm: Id -> int) {
    forall id :: id in bw ==> norm(id) == if Limited(bw, id) then ShareIn(bw, id) else -1
  }

  lemma NormsAreLimits(bw: map<Id, Bandwidth>, norm: Id -> int)
    requires AllAccepted(bw) && forall id :: id in bw ==> norm(id) == Normalize(bw[id])
    ensures LimitsOf(bw, norm) && forall id :: Limited(bw, id) ==> ShareIn(bw, id) > 0
  {
    forall id | id in bw
      ensures norm(id) == if Limited(bw, id) then ShareIn(bw, id) else -1
      ensures Limited(bw, id) ==> ShareIn(bw, id) > 0
    {
      NormalizedIff(bw[id], 0);
    }
  }

  ghost predicate Within(bw: map<Id, Bandwidth>, p: seq<Tree>) {
    forall i :: 0 <= i < |p| ==> p[i].id in bw
  }

  /** The tightest limit along a path, and the nesting of limits, in terms of the bandwidths. */
  lemma PathInShares(bw: map<Id, Bandwidth>, norm: Id -> int, p: seq<Tree>)
    requires LimitsOf(bw, norm) && (forall id :: Limited(bw, id) ==> ShareIn(bw, id) > 0) && Within(bw, p)
    ensures IsPathShare(bw, p, TightestAlong(norm, p, -1))
    ensures Nested(norm, p, -1) <==> NestedShares(bw, p)
  {
    TightestIsMinimum(norm, p, -1);
    forall i | 0 <= i < |p| ensures (norm(p[i].id) != -1 <==> Limited(bw, p[i].id)) && (Limited(bw, p[i].id) ==> norm(p[i].id) == ShareIn(bw, p[i].id)) {
      assert p[i].id in bw;
    }
    var m := TightestAlong(norm, p, -1);
    if m != -1 {
      var i :| 0 <= i < |p| && m == norm(p[i].id);
      assert Limited(bw, p[i].id) && ShareIn(bw, p[i].id) == m;
    }
  }

  lemma {:induction false} KidIds(ts: seq<Tree>, t: Tree)
    requires t in ts
    ensures Ids(t) <= IdsAll(ts)
  {
    if t != ts[0] { KidIds(ts[1..], t); }
  }

  lemma {:induction false} PathWithin(bw: map<Id, Bandwidth>, t: Tree, p: seq<Tree>)
    requires Ids(t) <= bw.Keys && IsPath(p) && p[0] in t.kids
    ensures Within(bw, p)
    decreases |p|
  {
    KidIds(t.kids, p[0]);
    if |p| > 1 {
      PathWithin(bw, p[0], p[1..]);
      assert forall i :: 0 < i < |p| ==> p[i] == p[1..][i - 1];
    }
  }

  class Hierarchy {
    const v2: bool
    const links: Links
    const rootId: Id
    ghost const root: Tree
    var bandwidth: map<Id, Bandwidth>
    var quotas: Quotas

    ghost predicate Shaped()
      reads this
    {
      && Linked(links, root) && Distinct(root) && root.id == rootId && links.parent(rootId) == None
      && bandwidth.Keys == Ids(root)
    }

    /** Besides, only bandwidths that were accepted are stored. */
    ghost predicate Valid()
      reads this
    {
      Shaped() && AllAccepted(bandwidth)
    }

    /** The hierarchical quotas are those of the stored bandwidths, which are nested. */
    ghost predicate UpToDate()
      reads this
    {
      InForce(NormOf(bandwidth), root, quotas)
    }

    constructor (v2: bool, links: Links, rootId: Id, ghost root: Tree, bandwidth: map<Id, Bandwidth>)
      requires Linked(links, root) && Distinct(root) && root.id == rootId && links.parent(rootId) == None
      requires bandwidth.Keys == Ids(root) && AllAccepted(bandwidth)
      ensures Valid() && this.bandwidth == bandwidth && this.v2 == v2 && this.root == root && quotas == map[]
    {
      this.v2, this.links, this.rootId, this.root := v2, links, rootId, root;
      this.bandwidth := bandwidth;
      quotas := map[];
    }

    /** __cfs_schedulable: the walk with the check going down. */
    method Schedulable(tg: Id, b: Bandwidth) returns (ret: int)
      requires Shaped()
      modifies `quotas
      ensures (ret, quotas) == Visit(root, CheckVisitor(v2, NormWith(bandwidth, tg, b), links.parent), NopVisitor(), old(quotas))
    {
      ret, quotas := Walk(links, rootId, CheckVisitor(v2, NormWith(bandwidth, tg, b), links.parent), NopVisitor(), quotas, root);
    }

    /** What a refusal by the walk leaves, for every path to the group. */
    ghost predicate Refusal(before: Quotas, tg: Id, quota: int)
      reads this
    {
      forall p: seq<Tree> :: LeadsTo(p, tg) && p[0] in root.kids ==>
        && (Same(before, quotas) <==> Exceeds(quota, Limit(NormOf(bandwidth), p, -1)))
        && (!Same(before, quotas) ==> quota != -1 && Hier(quotas, tg) == quota && Hier(before, tg) != quota)
    }

    /** On every path the hierarchical quota is the smallest share, and "no limit" iff there is no quota. */
    ghost predicate InShares(bw: map<Id, Bandwidth>)
      reads this
    {
      forall p: seq<Tree> :: IsPath(p) && p[0] in root.kids ==> IsPathShare(bw, p, Hier(quotas, p[|p| - 1].id))
    }

    ghost predicate AllNested(bw: map<Id, Bandwidth>) {
      forall p: seq<Tree> :: IsPath(p) && p[0] in root.kids ==> NestedShares(bw, p)
    }

    /** The range tests of tg_set_cfs_bandwidth, in the order of the code. */
    method OutOfRange(b: Bandwidth, burst: nat) returns (refused: bool)
      ensures refused <==> !Accepted(b, burst)
      ensures b.quota == RUNTIME_INF ==> (refused <==> b.period < 1_000_000 || b.period > 1_000_000_000)
      ensures b.quota != RUNTIME_INF && burst < TWO64 - b.quota ==>
        (refused <==> b.quota < 1_000_000 || b.period < 1_000_000 || b.period > 1_000_000_000 || burst > b.quota || burst + b.quota > 17592186044415000)
    {
      if b.quota < MIN_PERIOD || b.period < MIN_PERIOD { return true; }
      if b.period > MAX_PERIOD { return true; }
      if b.quota != RUNTIME_INF && b.quota > MAX_RUNTIME { return true; }
      if b.quota != RUNTIME_INF && (burst > b.quota || (burst + b.quota) % TWO64 > MAX_RUNTIME) { return true; }
      return false;
    }

    /** The walk with the new value in place, and the store. */
    method CheckAndStore(tg: Id, b: Bandwidth) returns (ret: int)
      requires Shaped() && tg in bandwidth
      modifies this
      ensures Shaped()
      ensures ret == 0 <==> v2 || forall p: seq<Tree> :: IsPath(p) && p[0] in root.kids ==> Nested(NormWith(old(bandwidth), tg, b), p, -1)
      ensures bandwidth == if ret == 0 then old(bandwidth)[tg := b] else old(bandwidth)
      ensures ret == 0 ==> forall p: seq<Tree> :: IsPath(p) && p[0] in root.kids ==>
        Hier(quotas, p[|p| - 1].id) == TightestAlong(NormWith(old(bandwidth), tg, b), p, -1)
      ensures ret == 0 && !v2 ==> UpToDate()
      ensures ret != 0 && old(UpToDate()) ==> Refusal(old(quotas), tg, Normalize(b))
    {
      ghost var norm, norm' := NormOf(bandwidth), NormWith(bandwidth, tg, b);
      ghost var before := quotas;
      ret := Schedulable(tg, b);
      if v2 {
        UnifiedAlwaysSucceeds(norm', links, root, before);
      } else {
        LegacySucceedsIffNested(norm', links, root, before);
      }
      if ret != 0 {
        if InForce(norm, root, before) { Refused(norm, norm', tg, before); }
        return;
      }
      forall p: seq<Tree> | IsPath(p) && p[0] in root.kids
        ensures Hier(quotas, p[|p| - 1].id) == TightestAlong(norm', p, -1)
      {
        SuccessGivesPathMinimum(v2, norm', links, root, before, p);
      }
      bandwidth := bandwidth[tg := b];
      if !v2 { Stored(norm', before); }
    }

    /**
     tg_set_cfs_bandwidth: refuses the root and out-of-range values, then checks the hierarchy with
     the new value in place and stores it. After a success every group has the smallest share that
     a quota on its path leaves, and no limit iff there is no quota on it. After a refusal by the
     walk, from up-to-date quotas, either nothing has changed, which is so iff the new quota exceeds
     the tightest one above the group, or the group carries the refused quota.
     */
    method SetBandwidth(tg: Id, b: Bandwidth, burst: nat) returns (ret: int)
      requires Valid() && tg in bandwidth
      modifies this
      ensures Valid()
      ensures ret == 0 <==> tg != rootId && Accepted(b, burst) && (v2 || AllNested(old(bandwidth)[tg := b]))
      ensures bandwidth == if ret == 0 then old(bandwidth)[tg := b] else old(bandwidth)
      ensures ret == 0 ==> InShares(bandwidth)
      ensures ret == 0 && !v2 ==> UpToDate()
      ensures tg == rootId || !Accepted(b, burst) ==> quotas == old(quotas)
      ensures ret != 0 && tg != rootId && Accepted(b, burst) && old(UpToDate()) ==> Refusal(old(quotas), tg, Normalize(b))
    {
      if tg == rootId { return -EINVAL; }
      var refused := OutOfRange(b, burst);
      if refused { return -EINVAL; }
      AcceptedWithoutBurst(b, burst);
      ghost var bw, norm' := bandwidth[tg := b], NormWith(bandwidth, tg, b);
      NormsAreLimits(bw, norm');
      forall p: seq<Tree> | IsPath(p) && p[0] in root.kids
        ensures IsPathShare(bw, p, TightestAlong(norm', p, -1)) && (Nested(norm', p, -1) <==> NestedShares(bw, p))
      {
        PathWithin(bw, root, p);
        PathInShares(bw, norm', p);
      }
      ret := CheckAndStore(tg, b);
    }

    lemma Refused(norm: Id -> int, norm': Id -> int, tg: Id, before: Quotas)
      requires Shaped() && !v2 && norm == NormOf(bandwidth) && ButFor(norm, norm', tg) && InForce(norm, root, before)
      requires CheckVisit(norm', links, root, before).0 != 0 && quotas == CheckVisit(norm', links, root, before).1
      ensures Refusal(before, tg, norm'(tg))
    {
      forall p: seq<Tree> | LeadsTo(p, tg) && p[0] in root.kids
        ensures Same(before, quotas) <==> Exceeds(norm'(tg), Limit(norm, p, -1))
        ensures !Same(before, quotas) ==> norm'(tg) != -1 && Hier(quotas, tg) == norm'(tg) && Hier(before, tg) != norm'(tg)
      {
        RefusedWalk(norm, norm', tg, links, root, p, before);
      }
    }

    lemma Stored(norm': Id -> int, before: Quotas)
      requires Shaped() && forall x :: norm'(x) == NormOf(bandwidth)(x)
      requires CheckVisit(norm', links, root, before).0 == 0 && quotas == CheckVisit(norm', links, root, before).1
      ensures UpToDate()
    {
      WalkHierarchy(false, norm', links, root, before);
      SettledAgree(norm', NormOf(bandwidth), root.id, root.kids, -1, quotas);
      FitsAgree(norm', NormOf(bandwidth), root.id, root.kids, -1);
    }
  }
}
