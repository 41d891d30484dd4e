/**
 cpu_util_update_eff: after the requested clamps of one task group changed, a pre-order walk
 recomputes effective clamps below it and skips the subtree of every group whose effective
 clamps come out unchanged. The hierarchy is then as consistent as after recomputing all of it.
 */
module UclampHierarchy {
  import opened Basics
  import opened GroupTree

  /** UCLAMP_MIN and UCLAMP_MAX of a group. */
  datatype Clamps = Clamps(min: nat, max: nat)

  type Table = map<Id, Clamps>

  function Min(a: nat, b: nat): nat {
    if a < b then a else b
  }

  /** Requested clamps, capped by the parent's effective ones; then protection capped by limit. */
  function Effective(req: Clamps, parent: Option<Clamps>): Clamps {
    var hi := if parent.Some? && req.max > parent.value.max then parent.value.max else req.max;
    var lo := if parent.Some? && req.min > parent.value.min then parent.value.min else req.min;
    Clamps(Min(lo, hi), hi)
  }

  // ---- Trees of distinct groups whose child lists agree with the parent pointers.

  function Roots(ts: seq<Tree>): set<Id> {
    set t | t in ts :: t.id
  }

  /** Every group that points to a group of the subtree is in that group's child list. */
  ghost predicate Linked(parent: Id -> Option<Id>, all: set<Id>, t: Tree)
    decreases t, 1
  {
    && t.id in all
    && (forall x :: x in all && parent(x) == Some(t.id) ==> x in Roots(t.kids))
    && LinkedAll(parent, all, t.kids)
  }

  ghost predicate LinkedAll(parent: Id -> Option<Id>, all: set<Id>, ts: seq<Tree>)
    decreases ts, 0
  {
    ts != [] ==> Linked(parent, all, ts[0]) && LinkedAll(parent, all, ts[1..])
  }

  lemma {:induction false} Append(parent: Id -> Option<Id>, all: set<Id>, a: seq<Tree>, b: seq<Tree>)
    requires DistinctAll(a) && DistinctAll(b) && IdsAll(a) !! IdsAll(b)
    requires LinkedAll(parent, all, a) && LinkedAll(parent, all, b)
    ensures DistinctAll(a + b) && LinkedAll(parent, all, a + b)
  {
    if a == [] { assert a + b == b; } else {
      assert (a + b)[0] == a[0] && (a + b)[1..] == a[1..] + b;
      AppendIds(a[1..], b);
      Append(parent, all, a[1..], b);
    }
  }

  lemma {:induction false} AppendIds(a: seq<Tree>, b: seq<Tree>)
    ensures IdsAll(a + b) == IdsAll(a) + IdsAll(b) && Roots(a + b) == Roots(a) + Roots(b) && SizeAll(a + b) == SizeAll(a) + SizeAll(b)
  {
    if a == [] { assert a + b == b; } else {
      assert (a + b)[0] == a[0] && (a + b)[1..] == a[1..] + b;
      AppendIds(a[1..], b);
    }
  }

  lemma {:induction false} RootsInIds(ts: seq<Tree>)
    ensures Roots(ts) <= IdsAll(ts)
  {
    if ts != [] {
      RootsInIds(ts[1..]);
      assert Roots(ts) == {ts[0].id} + Roots(ts[1..]) by { assert ts == [ts[0]] + ts[1..]; }
    }
  }

  /** What is left of the walk: distinct groups of the hierarchy with complete child lists. */
  ghost predicate Pending(parent: Id -> Option<Id>, all: set<Id>, todo: seq<Tree>) {
    DistinctAll(todo) && LinkedAll(parent, all, todo) && IdsAll(todo) <= all
  }

  /** Moving the cursor: the group in front is left for its children and what follows. */
  lemma Front(parent: Id -> Option<Id>, all: set<Id>, todo: seq<Tree>)
    requires todo != [] && Pending(parent, all, todo)
    ensures var t, rest := todo[0], todo[1..];
      && t.id in all && parent(t.id) != Some(t.id) && t.id !in IdsAll(rest) && t.id !in IdsAll(t.kids)
      && Roots(todo) == {t.id} + Roots(rest)
      && IdsAll(rest) <= IdsAll(todo) && IdsAll(t.kids + rest) <= IdsAll(todo) && t.id !in IdsAll(t.kids + rest)
      && Roots(t.kids + rest) == Roots(t.kids) + Roots(rest)
      && Pending(parent, all, rest) && Pending(parent, all, t.kids + rest) && Linked(parent, all, t)
      && SizeAll(t.kids + rest) < SizeAll(todo) && SizeAll(rest) < SizeAll(todo)
  {
    var t, rest := todo[0], todo[1..];
    assert Linked(parent, all, t) && Distinct(t) && DistinctAll(t.kids) && IdsAll(t.kids) <= Ids(t);
    RootsInIds(t.kids);
    assert todo == [t] + rest;
    assert Roots(todo) == {t.id} + Roots(rest);
    AppendIds(t.kids, rest);
    Append(parent, all, t.kids, rest);
  }

  function SizeAll(ts: seq<Tree>): nat {
    if ts == [] then 0 else 1 + SizeAll(ts[0].kids) + SizeAll(ts[1..])
  }

  // ---- Consistency and its closed form.

  /** The group has the effective clamps that its request and its parent imply. */
  predicate Consistent(parent: Id -> Option<Id>, req: Table, eff: Table, x: Id) {
    && x in req && x in eff
    && (parent(x).Some? ==> parent(x).value in eff)
    && eff[x] == Effective(req[x], if parent(x).Some? then Some(eff[parent(x).value]) else None)
  }

  /** The groups from one without parent down to `p[|p| - 1]`. */
  predicate IsRootPath(parent: Id -> Option<Id>, req: Table, p: seq<Id>) {
    && |p| > 0 && parent(p[0]) == None
    && (forall i :: 0 <= i < |p| ==> p[i] in req)
    && (forall i :: 0 < i < |p| ==> parent(p[i]) == Some(p[i - 1]))
  }

  function LeastMax(req: Table, p: seq<Id>): nat
    requires |p| > 0 && forall i :: 0 <= i < |p| ==> p[i] in req
  {
    var last := req[p[|p| - 1]].max;
    if |p| == 1 then last else Min(last, LeastMax(req, p[..|p| - 1]))
  }

  function LeastMinOrMax(req: Table, p: seq<Id>): nat
    requires |p| > 0 && forall i :: 0 <= i < |p| ==> p[i] in req
  {
    var last := Min(req[p[|p| - 1]].min, req[p[|p| - 1]].max);
    if |p| == 1 then last else Min(last, LeastMinOrMax(req, p[..|p| - 1]))
  }

  /** LeastMax and LeastMinOrMax are the minima they are named after. */
  lemma {:induction false} LeastIsLeast(req: Table, p: seq<Id>)
    requires |p| > 0 && forall i :: 0 <= i < |p| ==> p[i] in req
    ensures (forall i :: 0 <= i < |p| ==> LeastMax(req, p) <= req[p[i]].max) && exists i :: 0 <= i < |p| && LeastMax(req, p) == req[p[i]].max
    ensures forall i :: 0 <= i < |p| ==> LeastMinOrMax(req, p) <= req[p[i]].min && LeastMinOrMax(req, p) <= req[p[i]].max
    ensures exists i :: 0 <= i < |p| && (LeastMinOrMax(req, p) == req[p[i]].min || LeastMinOrMax(req, p) == req[p[i]].max)
  {
    var n := |p| - 1;
    assert p[n] in req;
    if n > 0 {
      var q := p[..n];
      LeastIsLeast(req, q);
      assert forall i :: 0 <= i < n ==> q[i] == p[i];
      if LeastMax(req, p) != req[p[n]].max {
        var i :| 0 <= i < n && LeastMax(req, q) == req[q[i]].max;
        assert LeastMax(req, p) == req[p[i]].max;
      }
      if LeastMinOrMax(req, p) != req[p[n]].min && LeastMinOrMax(req, p) != req[p[n]].max {
        var i :| 0 <= i < n && (LeastMinOrMax(req, q) == req[q[i]].min || LeastMinOrMax(req, q) == req[q[i]].max);
        assert LeastMinOrMax(req, p) == req[p[i]].min || LeastMinOrMax(req, p) == req[p[i]].max;
      }
    }
  }

  /**
   Consistency determines the effective clamps: the maximum is the least requested maximum on the
   root path, the minimum the least of all requested minima and maxima on it.
   */
  lemma {:induction false} PathMinimum(parent: Id -> Option<Id>, req: Table, eff: Table, p: seq<Id>)
    requires IsRootPath(parent, req, p)
    requires forall i :: 0 <= i < |p| ==> Consistent(parent, req, eff, p[i])
    ensures p[|p| - 1] in eff && eff[p[|p| - 1]] == Clamps(LeastMinOrMax(req, p), LeastMax(req, p))
    decreases |p|
  {
    var n := |p| - 1;
    assert Consistent(parent, req, eff, p[n]);
    if n > 0 {
      assert IsRootPath(parent, req, p[..n]);
      PathMinimum(parent, req, eff, p[..n]);
    }
  }

  // ---- The pruned walk.

  class Groups {
    const parent: Id -> Option<Id>
    const all: set<Id>                // every group of the hierarchy
    var req: Table
    var eff: Table

    ghost predicate Valid()
      reads this
    {
      && req.Keys == all && eff.Keys == all
      && (forall x :: x in all && parent(x).Some? ==> parent(x).value in all)
    }

    /** Every group is consistent, except possibly those in `bad`. */
    ghost predicate ConsistentBut(bad: set<Id>)
      reads this
    {
      forall x :: x in all && x !in bad ==> Consistent(parent, req, eff, x)
    }

    constructor (parent: Id -> Option<Id>, all: set<Id>, req: Table, eff: Table)
      requires req.Keys == all && eff.Keys == all
      requires forall x :: x in all && parent(x).Some? ==> parent(x).value in all
      ensures Valid() && this.parent == parent && this.all == all && this.req == req && this.eff == eff
    {
      this.parent, this.all, this.req, this.eff := parent, all, req, eff;
    }

    /** What the walk stores for one group. */
    ghost function Implied(x: Id): Clamps
      requires Valid() && x in all
      reads this
    {
      Effective(req[x], if parent(x).Some? then Some(eff[parent(x).value]) else None)
    }

    method Recompute(x: Id) returns (changed: bool)
      requires Valid() && x in all
      modifies `eff
      ensures Valid() && eff == old(eff)[x := old(Implied(x))]
      ensures if changed then eff[x] != old(eff)[x] else eff == old(eff)
    {
      var e := Effective(req[x], if parent(x).Some? then Some(eff[parent(x).value]) else None);
      changed := e != eff[x];
      eff := eff[x := e];
    }

    /**
     cpu_util_update_eff on the subtree of `top`: repairs the whole hierarchy although it skips
     subtrees. `updated` are the groups whose tasks it refreshed: those whose clamps changed.
     */
    method UpdateEff(top: Tree) returns (updated: set<Id>)
      requires Valid() && Distinct(top) && Linked(parent, all, top) && Ids(top) <= all
      requires ConsistentBut({top.id})
      modifies `eff
      ensures Valid() && ConsistentBut({})
      ensures forall x :: x in all ==> (x in updated <==> eff[x] != old(eff)[x])
    {
      updated := {};
      var todo := [top];          // the cursor: the next group, then what follows in pre-order
      assert todo[1..] == [];
      while todo != []
        invariant Valid() && Pending(parent, all, todo)
        invariant ConsistentBut(Roots(todo))
        invariant forall x :: x in IdsAll(todo) ==> eff[x] == old(eff)[x]
        invariant forall x :: x in all ==> (x in updated <==> eff[x] != old(eff)[x])
        decreases SizeAll(todo)
      {
        Front(parent, all, todo);
        var t, rest := todo[0], todo[1..];
        ghost var before := eff;
        var changed := Recompute(t.id);
        if !changed {
          todo := rest;           // css_rightmost_descendant: skip the subtree
        } else {
          Changed(before, t, rest);
          updated := updated + {t.id};
          todo := t.kids + rest;
        }
      }
      assert Roots([]) == {};
    }

    /** Changing the clamps of `t` can only make its children inconsistent. */
    lemma Changed(before: Table, t: Tree, rest: seq<Tree>)
      requires Valid() && before.Keys == all && Linked(parent, all, t) && parent(t.id) != Some(t.id)
      requires eff == before[t.id := Effective(req[t.id], if parent(t.id).Some? then Some(before[parent(t.id).value]) else None)]
      requires forall x :: x in all && x != t.id && x !in Roots(rest) ==> Consistent(parent, req, before, x)
      ensures forall x :: x in all && x !in Roots(t.kids) && x !in Roots(rest) ==> Consistent(parent, req, eff, x)
    {
      forall x | x in all && x !in Roots(t.kids) && x !in Roots(rest) ensures Consistent(parent, req, eff, x) {
        assert parent(x) != Some(t.id);
        if x != t.id { assert Consistent(parent, req, before, x); }
      }
    }

    /** cpu_uclamp_write: a new request for one group; a consistent hierarchy stays consistent. */
    method Write(top: Tree, isMax: bool, util: nat) returns (updated: set<Id>)
      requires Valid() && ConsistentBut({})
      requires Distinct(top) && Linked(parent, all, top) && Ids(top) <= all
      modifies this
      ensures Valid() && ConsistentBut({})
      ensures req == old(req)[top.id := if isMax then old(req)[top.id].(max := util) else old(req)[top.id].(min := util)]
      ensures forall x :: x in all ==> (x in updated <==> eff[x] != old(eff)[x])
    {
      assert top.id in all;
      req := req[top.id := if isMax then req[top.id].(max := util) else req[top.id].(min := util)];
      forall x | x in all && x != top.id ensures Consistent(parent, req, eff, x) {
        assert old(Consistent(parent, req, eff, x));
      }
      updated := UpdateEff(top);
    }

    /** Over any sequence of writes: every group's clamps are the minima over its root path. */
    lemma EffectiveIsPathMinimum(p: seq<Id>)
      requires Valid() && ConsistentBut({}) && IsRootPath(parent, req, p)
      ensures eff[p[|p| - 1]] == Clamps(LeastMinOrMax(req, p), LeastMax(req, p))
    {
      PathMinimum(parent, req, eff, p);
    }
  }
}
