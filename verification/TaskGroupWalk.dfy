/**
 walk_tg_tree_from: a traversal of the task-group tree that jumps into the middle of its child
 loop, over parent/child/sibling links. It makes exactly the calls of the recursive traversal,
 `down` before and `up` after the children, up to the first non-zero result, and terminates.
 */
module TaskGroupWalk {
  import opened Basics
  import opened GroupTree

  /** The pointers: head of the child list, next sibling, parent. */
  datatype Links = Links(first: Id -> Option<Id>, next: Id -> Option<Id>, parent: Id -> Option<Id>)

  /** A visitor gets a group and the caller's data, and returns a result and the new data. */
  type Visitor<!S> = (Id, S) -> (int, S)

  // ---- The recursive traversal, and the flat list of its calls.

  function Visit<S>(t: Tree, down: Visitor<S>, up: Visitor<S>, s: S): (int, S)
    decreases t, 1
  {
    var (r, s1) := down(t.id, s);
    if r != 0 then (r, s1) else
    var (r2, s2) := VisitAll(t.kids, down, up, s1);
    if r2 != 0 then (r2, s2) else up(t.id, s2)
  }

  function VisitAll<S>(ts: seq<Tree>, down: Visitor<S>, up: Visitor<S>, s: S): (int, S)
    decreases ts, 0
  {
    if ts == [] then (0, s) else
    var (r, s1) := Visit(ts[0], down, up, s);
    if r != 0 then (r, s1) else VisitAll(ts[1..], down, up, s1)
  }

  datatype Call = Down(id: Id) | Up(id: Id)

  /** The calls of a complete traversal, in order. */
  function Calls(t: Tree): seq<Call>
    decreases t, 1
  {
    [Down(t.id)] + CallsAll(t.kids) + [Up(t.id)]
  }

  function CallsAll(ts: seq<Tree>): seq<Call>
    decreases ts, 0
  {
    if ts == [] then [] else Calls(ts[0]) + CallsAll(ts[1..])
  }

  /** Makes the calls of a list one after the other, up to the first non-zero result. */
  function MakeCalls<S>(cs: seq<Call>, down: Visitor<S>, up: Visitor<S>, s: S): (int, S) {
    if cs == [] then (0, s) else
    var (r, s1) := if cs[0].Down? then down(cs[0].id, s) else up(cs[0].id, s);
    if r != 0 then (r, s1) else MakeCalls(cs[1..], down, up, s1)
  }

  lemma {:induction false} MakeCallsAppend<S>(a: seq<Call>, b: seq<Call>, down: Visitor<S>, up: Visitor<S>, s: S)
    ensures MakeCalls(a + b, down, up, s) ==
      var (r, s1) := MakeCalls(a, down, up, s);
      if r != 0 then (r, s1) else MakeCalls(b, down, up, s1)
  {
    if a == [] {
      assert a + b == b;
    } else {
      var (r, s1) := if a[0].Down? then down(a[0].id, s) else up(a[0].id, s);
      assert (a + b)[1..] == a[1..] + b;
      MakeCallsAppend(a[1..], b, down, up, s1);
    }
  }

  /** The recursive traversal makes the listed calls, truncated at the first non-zero result. */
  lemma {:induction false} VisitMakesCalls<S>(t: Tree, down: Visitor<S>, up: Visitor<S>, s: S)
    ensures Visit(t, down, up, s) == MakeCalls(Calls(t), down, up, s)
    decreases t, 1
  {
    var (r, s1) := down(t.id, s);
    var rest := CallsAll(t.kids) + [Up(t.id)];
    assert Calls(t) == [Down(t.id)] + rest;
    assert Calls(t)[1..] == rest;
    VisitAllMakesCalls(t.kids, down, up, s1);
    MakeCallsAppend(CallsAll(t.kids), [Up(t.id)], down, up, s1);
  }

  lemma {:induction false} VisitAllMakesCalls<S>(ts: seq<Tree>, down: Visitor<S>, up: Visitor<S>, s: S)
    ensures VisitAll(ts, down, up, s) == MakeCalls(CallsAll(ts), down, up, s)
    decreases ts, 0
  {
    if ts != [] {
      var (r, s1) := Visit(ts[0], down, up, s);
      VisitMakesCalls(ts[0], down, up, s);
      VisitAllMakesCalls(ts[1..], down, up, s1);
      MakeCallsAppend(Calls(ts[0]), CallsAll(ts[1..]), down, up, s);
    }
  }

  // ---- The pointers represent a tree.

  ghost predicate Linked(l: Links, t: Tree) {
    && l.first(t.id) == KidId(t, 0)
    && (forall i :: 0 <= i < |t.kids| ==> KidLinked(l, t, i))
    && (forall i :: 0 <= i < |t.kids| ==> Linked(l, t.kids[i]))
  }

  ghost predicate KidLinked(l: Links, t: Tree, i: nat)
    requires i < |t.kids|
  {
    l.parent(t.kids[i].id) == Some(t.id) && l.next(t.kids[i].id) == KidId(t, i + 1)
  }

  function KidId(t: Tree, i: nat): Option<Id> {
    if i < |t.kids| then Some(t.kids[i].id) else None
  }

  function Size(t: Tree): nat
    decreases t, 1
  {
    2 + SizeAll(t.kids)
  }

  function SizeAll(ts: seq<Tree>): nat
    decreases ts, 0
  {
    if ts == [] then 0 else Size(ts[0]) + SizeAll(ts[1..])
  }

  lemma {:induction false} KidIsSmaller(ts: seq<Tree>, i: nat)
    requires i < |ts|
    ensures Size(ts[i]) <= SizeAll(ts)
  {
    if i > 0 { KidIsSmaller(ts[1..], i - 1); }
  }

  /** Following the same pointers from the same group gives the same tree. */
  lemma {:induction false} SameIdSameTree(l: Links, a: Tree, b: Tree)
    requires Linked(l, a) && Linked(l, b) && a.id == b.id
    ensures a == b
    decreases a, 1
  {
    SameListSameTrees(l, a, b, 0);
    assert a.kids == b.kids;
  }

  lemma {:induction false} SameListSameTrees(l: Links, a: Tree, b: Tree, i: nat)
    requires Linked(l, a) && Linked(l, b) && i <= |a.kids| && i <= |b.kids|
    requires forall m :: 0 <= m < i ==> a.kids[m] == b.kids[m]
    requires KidId(a, i) == KidId(b, i)
    ensures a.kids == b.kids
    decreases a, 0, |a.kids| - i
  {
    if i < |a.kids| {
      var x, y := a.kids[i], b.kids[i];
      assert Linked(l, x) && Linked(l, y);
      SameIdSameTree(l, x, y);
      assert KidLinked(l, a, i) && KidLinked(l, b, i);
      SameListSameTrees(l, a, b, i + 1);
    }
  }

  // ---- Where the walk is: the groups it is below, and which child of each it is in.

  datatype Place = Top | Below(outer: Place, group: Tree, i: nat)

  ghost predicate At(l: Links, root: Tree, p: Place, n: Tree) {
    && Linked(l, n)
    && match p
       case Top => n == root
       case Below(o, g, i) => i < |g.kids| && g.kids[i] == n && At(l, root, o, g)
  }

  lemma {:induction false} BelowIsSmaller(l: Links, root: Tree, p: Place, n: Tree)
    requires At(l, root, p, n)
    ensures Linked(l, root) && (if p.Top? then n == root else Size(n) < Size(root))
  {
    if p.Below? {
      KidIsSmaller(p.group.kids, p.i);
      BelowIsSmaller(l, root, p.outer, p.group);
    }
  }

  /** `parent == from` holds only at the top. */
  lemma AtTop(l: Links, root: Tree, p: Place, n: Tree)
    requires At(l, root, p, n)
    ensures n.id == root.id <==> p.Top?
  {
    BelowIsSmaller(l, root, p, n);
    if n.id == root.id { SameIdSameTree(l, n, root); }
  }

  /** What the recursion still does when `n` is done up to its child `j`. */
  function Resume<S>(p: Place, n: Tree, j: nat, down: Visitor<S>, up: Visitor<S>, s: S): (int, S)
    requires j <= |n.kids|
    decreases p
  {
    var (r, s1) := VisitAll(n.kids[j..], down, up, s);
    if r != 0 then (r, s1) else
    var (r2, s2) := up(n.id, s1);
    if r2 != 0 || p.Top? then (r2, s2)
    else if p.i < |p.group.kids| then Resume(p.outer, p.group, p.i + 1, down, up, s2)
    else (0, s2)
  }

  /** The same, when `n` has not been entered yet. */
  function Enter<S>(p: Place, n: Tree, down: Visitor<S>, up: Visitor<S>, s: S): (int, S) {
    var (r, s1) := down(n.id, s);
    if r != 0 then (r, s1) else Resume(p, n, 0, down, up, s1)
  }

  lemma ResumeStep<S>(p: Place, n: Tree, j: nat, down: Visitor<S>, up: Visitor<S>, s: S)
    requires j < |n.kids|
    ensures Resume(p, n, j, down, up, s) ==
      var (r, s1) := Visit(n.kids[j], down, up, s);
      if r != 0 then (r, s1) else Resume(p, n, j + 1, down, up, s1)
  {
    assert n.kids[j..][0] == n.kids[j] && n.kids[j..][1..] == n.kids[j + 1..];
  }

  lemma EnterChild<S>(p: Place, n: Tree, j: nat, down: Visitor<S>, up: Visitor<S>, s: S)
    requires j < |n.kids|
    ensures Resume(p, n, j, down, up, s) == Enter(Below(p, n, j), n.kids[j], down, up, s)
  {
    ResumeStep(p, n, j, down, up, s);
    var k := n.kids[j];
    var (r, s1) := down(k.id, s);
    assert k.kids[0..] == k.kids;
    assert Resume(Below(p, n, j), k, 0, down, up, s1) ==
      var (r1, s2) := VisitAll(k.kids, down, up, s1);
      if r1 != 0 then (r1, s2) else
      var (r2, s3) := up(k.id, s2);
      if r2 != 0 then (r2, s3) else Resume(p, n, j + 1, down, up, s3);
  }

  lemma ResumeUp<S>(p: Place, n: Tree, down: Visitor<S>, up: Visitor<S>, s: S)
    requires p.Below? ==> p.i < |p.group.kids|
    ensures Resume(p, n, |n.kids|, down, up, s) ==
      var (r, s1) := up(n.id, s);
      if r != 0 || p.Top? then (r, s1) else Resume(p.outer, p.group, p.i + 1, down, up, s1)
  {
    assert n.kids[|n.kids|..] == [];
  }

  /** The links out of a finished group lead to its parent and to its next sibling. */
  lemma Leave(l: Links, root: Tree, p: Place, n: Tree)
    requires At(l, root, p, n) && p.Below?
    ensures p.i < |p.group.kids| && At(l, root, p.outer, p.group)
    ensures l.parent(n.id) == Some(p.group.id) && l.next(n.id) == KidId(p.group, p.i + 1)
  {
    assert KidLinked(l, p.group, p.i);
  }

  lemma EnterRoot<S>(t: Tree, down: Visitor<S>, up: Visitor<S>, s: S)
    ensures Enter(Top, t, down, up, s) == Visit(t, down, up, s)
  {
    assert t.kids[0..] == t.kids;
  }

  /** Work left: strictly less after every jump. */
  function Left(p: Place): nat {
    if p.Top? then 0
    else Left(p.outer) + 1 + if p.i < |p.group.kids| then SizeAll(p.group.kids[p.i + 1..]) else 0
  }

  lemma SizeStep(ts: seq<Tree>, j: nat)
    requires j < |ts|
    ensures SizeAll(ts[j..]) == Size(ts[j]) + SizeAll(ts[j + 1..])
  {
    assert ts[j..][0] == ts[j] && ts[j..][1..] == ts[j + 1..];
  }

  /** walk_tg_tree_from */
  method Walk<S>(l: Links, from: Id, down: Visitor<S>, up: Visitor<S>, data: S, ghost t: Tree) returns (ret: int, s: S)
    requires Linked(l, t) && t.id == from
    ensures (ret, s) == Visit(t, down, up, data)
  {
    EnterRoot(t, down, up, data);
    var parent := from;
    var child := None;
    var entering := true;                 // at label `down`, otherwise after label `up`
    ghost var p, n, j: nat := Top, t, 0;
    s := data;
    while true
      invariant At(l, t, p, n) && n.id == parent && j <= |n.kids|
      invariant !entering ==> child == KidId(n, j)
      invariant Visit(t, down, up, data) ==
        if entering then Enter(p, n, down, up, s) else Resume(p, n, j, down, up, s)
      decreases Left(p) + (if entering then Size(n) else 1 + SizeAll(n.kids[j..])), !entering
    {
      if entering {
        var r := down(parent, s);
        ret, s := r.0, r.1;
        if ret != 0 { return; }
        child := l.first(parent);
        j := 0;
        assert n.kids[0..] == n.kids;
      }
      if child.Some? {
        EnterChild(p, n, j, down, up, s);
        SizeStep(n.kids, j);
        p, n, j := Below(p, n, j), n.kids[j], 0;
        parent := child.value;
        entering := true;
      } else {
        ghost var before := s;
        var r := up(parent, s);
        ret, s := r.0, r.1;
        ResumeUp(p, n, down, up, before);
        AtTop(l, t, p, n);
        if ret != 0 || parent == from { return; }
        Leave(l, t, p, n);
        child := l.next(parent);
        var above := l.parent(parent);
        if above.None? { return; }
        parent := above.value;
        p, n, j := p.outer, p.group, p.i + 1;
        entering := false;
      }
    }
  }
}
