/**
 walk_process_tree: a depth-first walk over processes, written as two nested list loops that are
 left and re-entered by goto. It calls the visitor on exactly the processes the recursive walk
 visits, in the same order, and terminates.
 */
module ProcessWalk {
  import opened Basics

  type Pid = nat

  /** A thread group: its leader, and for each of its threads the child processes of that thread. */
  datatype Proc = Proc(leader: Pid, threads: seq<Thread>)
  datatype Thread = Thread(tid: Pid, kids: seq<Proc>)

  /** The pointers the walk follows. */
  datatype Links = Links(
    firstThread: Pid -> Option<Pid>,    // of a leader
    nextThread: Pid -> Option<Pid>,
    firstChild: Pid -> Option<Pid>,     // of a thread
    nextSibling: Pid -> Option<Pid>,    // of a child's leader
    realParent: Pid -> Pid,             // the thread whose child list the leader is on
    groupLeader: Pid -> Pid)

  /** Negative stops the walk, positive descends into the process, zero skips its children. */
  type Visitor<!S> = (Pid, S) -> (int, S)

  // ---- The recursive walk. The result says whether the visitor stopped it.

  function Visit<S>(p: Proc, f: Visitor<S>, s: S): (bool, S)
    decreases p, 2
  {
    VisitThreads(p.threads, f, s)
  }

  function VisitThreads<S>(ts: seq<Thread>, f: Visitor<S>, s: S): (bool, S)
    decreases ts, 1
  {
    if ts == [] then (false, s) else
    var (stop, s1) := VisitKids(ts[0].kids, f, s);
    if stop then (true, s1) else VisitThreads(ts[1..], f, s1)
  }

  function VisitKids<S>(ks: seq<Proc>, f: Visitor<S>, s: S): (bool, S)
    decreases ks, 0
  {
    if ks == [] then (false, s) else
    var (res, s1) := f(ks[0].leader, s);
    if res < 0 then (true, s1) else
    var (stop, s2) := if res > 0 then Visit(ks[0], f, s1) else (false, s1);
    if stop then (true, s2) else VisitKids(ks[1..], f, s2)
  }

  // ---- The pointers represent a tree of processes.

  function TidAt(p: Proc, i: nat): Option<Pid> {
    if i < |p.threads| then Some(p.threads[i].tid) else None
  }

  function KidAt(t: Thread, j: nat): Option<Pid> {
    if j < |t.kids| then Some(t.kids[j].leader) else None
  }

  ghost predicate Linked(l: Links, p: Proc)
    decreases p, 1
  {
    && l.firstThread(p.leader) == TidAt(p, 0)
    && (forall i :: 0 <= i < |p.threads| ==> ThreadLinked(l, p, i))
  }

  ghost predicate ThreadLinked(l: Links, p: Proc, i: nat)
    requires i < |p.threads|
    decreases p, 0
  {
    var t := p.threads[i];
    && l.nextThread(t.tid) == TidAt(p, i + 1)
    && l.groupLeader(t.tid) == p.leader
    && l.firstChild(t.tid) == KidAt(t, 0)
    && (forall j :: 0 <= j < |t.kids| ==> KidLinked(l, t, j))
    && (forall j :: 0 <= j < |t.kids| ==> Linked(l, t.kids[j]))
  }

  ghost predicate KidLinked(l: Links, t: Thread, j: nat)
    requires j < |t.kids|
  {
    l.nextSibling(t.kids[j].leader) == KidAt(t, j + 1) && l.realParent(t.kids[j].leader) == t.tid
  }

  // ---- Sizes, and uniqueness of the represented tree.

  function Size(p: Proc): nat
    decreases p, 2
  {
    1 + SizeThreads(p.threads)
  }

  function SizeThreads(ts: seq<Thread>): nat
    decreases ts, 1
  {
    if ts == [] then 0 else 1 + SizeKids(ts[0].kids) + SizeThreads(ts[1..])
  }

  function SizeKids(ks: seq<Proc>): nat
    decreases ks, 0
  {
    if ks == [] then 0 else 1 + Size(ks[0]) + SizeKids(ks[1..])
  }

  lemma {:induction false} KidIsSmaller(ks: seq<Proc>, j: nat)
    requires j < |ks|
    ensures Size(ks[j]) < SizeKids(ks)
  {
    if j > 0 { KidIsSmaller(ks[1..], j - 1); }
  }

  lemma {:induction false} ThreadIsSmaller(ts: seq<Thread>, i: nat)
    requires i < |ts|
    ensures SizeKids(ts[i].kids) < SizeThreads(ts)
  {
    if i > 0 { ThreadIsSmaller(ts[1..], i - 1); }
  }

  lemma {:induction false} SameLeaderSameProc(l: Links, a: Proc, b: Proc)
    requires Linked(l, a) && Linked(l, b) && a.leader == b.leader
    ensures a == b
    decreases a, 3
  {
    SameThreads(l, a, b, 0);
  }

  lemma {:induction false} SameThreads(l: Links, a: Proc, b: Proc, i: nat)
    requires Linked(l, a) && Linked(l, b) && i <= |a.threads| && i <= |b.threads|
    requires forall m :: 0 <= m < i ==> a.threads[m] == b.threads[m]
    requires TidAt(a, i) == TidAt(b, i)
    ensures a.threads == b.threads
    decreases a, 2, |a.threads| - i
  {
    if i < |a.threads| {
      assert ThreadLinked(l, a, i) && ThreadLinked(l, b, i);
      SameKids(l, a, b, i, 0);
      SameThreads(l, a, b, i + 1);
    }
  }

  lemma {:induction false} SameKids(l: Links, a: Proc, b: Proc, i: nat, j: nat)
    requires i < |a.threads| && i < |b.threads| && ThreadLinked(l, a, i) && ThreadLinked(l, b, i)
    requires j <= |a.threads[i].kids| && j <= |b.threads[i].kids|
    requires forall m :: 0 <= m < j ==> a.threads[i].kids[m] == b.threads[i].kids[m]
    requires KidAt(a.threads[i], j) == KidAt(b.threads[i], j)
    ensures a.threads[i].kids == b.threads[i].kids
    decreases a, 1, |a.threads[i].kids| - j
  {
    var x, y := a.threads[i], b.threads[i];
    if j < |x.kids| {
      assert Linked(l, x.kids[j]) && Linked(l, y.kids[j]);
      SameLeaderSameProc(l, x.kids[j], y.kids[j]);
      assert KidLinked(l, x, j) && KidLinked(l, y, j);
      SameKids(l, a, b, i, j + 1);
    }
  }

  // ---- Where the walk is: for every process above, which child of which thread it descended into.

  datatype Place = Top | Below(outer: Place, proc: Proc, i: nat, j: nat)

  predicate InRange(p: Proc, i: nat, j: nat) {
    i < |p.threads| && j < |p.threads[i].kids|
  }

  ghost predicate At(l: Links, root: Proc, w: Place, p: Proc) {
    && Linked(l, p)
    && match w
       case Top => p == root
       case Below(o, q, i, j) => InRange(q, i, j) && q.threads[i].kids[j] == p && At(l, root, o, q)
  }

  lemma {:induction false} BelowIsSmaller(l: Links, root: Proc, w: Place, p: Proc)
    requires At(l, root, w, p)
    ensures Linked(l, root) && (if w.Top? then p == root else Size(p) < Size(root))
  {
    if w.Below? {
      KidIsSmaller(w.proc.threads[w.i].kids, w.j);
      ThreadIsSmaller(w.proc.threads, w.i);
      BelowIsSmaller(l, root, w.outer, w.proc);
    }
  }

  /** `leader != top` tells exactly whether the walk is below the top process. */
  lemma AtTop(l: Links, root: Proc, w: Place, p: Proc)
    requires At(l, root, w, p)
    ensures p.leader == root.leader <==> w.Top?
  {
    BelowIsSmaller(l, root, w, p);
    if p.leader == root.leader { SameLeaderSameProc(l, p, root); }
  }

  /** Climbing: the pointers lead back to the parent thread, its leader, and the next sibling. */
  lemma Climb(l: Links, root: Proc, w: Place, p: Proc)
    requires At(l, root, w, p) && w.Below?
    ensures InRange(w.proc, w.i, w.j) && At(l, root, w.outer, w.proc)
    ensures l.realParent(p.leader) == w.proc.threads[w.i].tid && l.groupLeader(w.proc.threads[w.i].tid) == w.proc.leader
    ensures l.nextSibling(p.leader) == KidAt(w.proc.threads[w.i], w.j + 1)
  {
    assert ThreadLinked(l, w.proc, w.i);
    assert KidLinked(l, w.proc.threads[w.i], w.j);
  }

  lemma Threads(l: Links, p: Proc, i: nat)
    requires Linked(l, p) && i < |p.threads|
    ensures l.nextThread(p.threads[i].tid) == TidAt(p, i + 1) && l.firstChild(p.threads[i].tid) == KidAt(p.threads[i], 0)
  {
    assert ThreadLinked(l, p, i);
  }

  lemma Descend(l: Links, root: Proc, w: Place, p: Proc, i: nat, j: nat)
    requires At(l, root, w, p) && InRange(p, i, j)
    ensures At(l, root, Below(w, p, i, j), p.threads[i].kids[j])
  {
    assert ThreadLinked(l, p, i);
  }

  // ---- What the recursion still does from a given point.

  /** From thread `i` on in process `p`, then in the processes above. */
  function FromThread<S>(w: Place, p: Proc, i: nat, f: Visitor<S>, s: S): (bool, S)
    requires i <= |p.threads|
    decreases w, 0, |p.threads| - i
  {
    var (stop, s1) := VisitThreads(p.threads[i..], f, s);
    if stop then (true, s1)
    else if w.Below? && InRange(w.proc, w.i, w.j) then FromKid(w.outer, w.proc, w.i, w.j + 1, f, s1)
    else (false, s1)
  }

  /** From child `j` of thread `i` on. */
  function FromKid<S>(w: Place, p: Proc, i: nat, j: nat, f: Visitor<S>, s: S): (bool, S)
    requires i < |p.threads| && j <= |p.threads[i].kids|
    decreases w, 1
  {
    var (stop, s1) := VisitKids(p.threads[i].kids[j..], f, s);
    if stop then (true, s1) else FromThread(w, p, i + 1, f, s1)
  }

  lemma OpenThread<S>(w: Place, p: Proc, i: nat, f: Visitor<S>, s: S)
    requires i < |p.threads|
    ensures FromThread(w, p, i, f, s) == FromKid(w, p, i, 0, f, s)
  {
    assert p.threads[i..][0] == p.threads[i] && p.threads[i..][1..] == p.threads[i + 1..];
    assert p.threads[i].kids[0..] == p.threads[i].kids;
  }

  lemma CloseThread<S>(w: Place, p: Proc, i: nat, f: Visitor<S>, s: S)
    requires i < |p.threads|
    ensures FromKid(w, p, i, |p.threads[i].kids|, f, s) == FromThread(w, p, i + 1, f, s)
  {
    assert p.threads[i].kids[|p.threads[i].kids|..] == [];
  }

  lemma CloseProc<S>(w: Place, p: Proc, f: Visitor<S>, s: S)
    requires w.Below? ==> InRange(w.proc, w.i, w.j)
    ensures FromThread(w, p, |p.threads|, f, s) ==
      if w.Below? then FromKid(w.outer, w.proc, w.i, w.j + 1, f, s) else (false, s)
  {
    assert p.threads[|p.threads|..] == [];
  }

  lemma CallKid<S>(w: Place, p: Proc, i: nat, j: nat, f: Visitor<S>, s: S)
    requires InRange(p, i, j)
    ensures var k := p.threads[i].kids[j]; var (res, s1) := f(k.leader, s);
      FromKid(w, p, i, j, f, s) ==
        if res < 0 then (true, s1)
        else if res > 0 then FromThread(Below(w, p, i, j), k, 0, f, s1)
        else FromKid(w, p, i, j + 1, f, s1)
  {
    var ks := p.threads[i].kids;
    var k := ks[j];
    assert ks[j..][0] == k && ks[j..][1..] == ks[j + 1..];
    assert k.threads[0..] == k.threads;
    var (res, s1) := f(k.leader, s);
    var (stop, s2) := Visit(k, f, s1);
    assert FromThread(Below(w, p, i, j), k, 0, f, s1) == if stop then (true, s2) else FromKid(w, p, i, j + 1, f, s2);
  }

  lemma StartAtTop<S>(p: Proc, f: Visitor<S>, s: S)
    ensures FromThread(Top, p, 0, f, s) == Visit(p, f, s)
  {
    assert p.threads[0..] == p.threads;
  }

  // ---- Work left.

  function Left(w: Place): nat {
    if w.Top? then 0
    else Left(w.outer) + 2 + if InRange(w.proc, w.i, w.j) then LeftInProc(w.proc, w.i, w.j + 1) else 0
  }

  function LeftInProc(p: Proc, i: nat, j: nat): nat
    requires i < |p.threads| && j <= |p.threads[i].kids|
  {
    SizeKids(p.threads[i].kids[j..]) + SizeThreads(p.threads[i + 1..])
  }

  lemma SizeKidsStep(ks: seq<Proc>, j: nat)
    requires j < |ks|
    ensures SizeKids(ks[j..]) == 1 + Size(ks[j]) + SizeKids(ks[j + 1..])
  {
    assert ks[j..][0] == ks[j] && ks[j..][1..] == ks[j + 1..];
  }

  lemma SizeThreadsStep(ts: seq<Thread>, i: nat)
    requires i < |ts|
    ensures SizeThreads(ts[i..]) == 1 + SizeKids(ts[i].kids) + SizeThreads(ts[i + 1..])
  {
    assert ts[i..][0] == ts[i] && ts[i..][1..] == ts[i + 1..];
  }

  /** walk_process_tree, from the process that thread `start` belongs to. */
  method Walk<S>(l: Links, start: Pid, f: Visitor<S>, data: S, ghost root: Proc) returns (s: S)
    requires Linked(l, root) && l.groupLeader(start) == root.leader
    ensures s == Visit(root, f, data).1
  {
    StartAtTop(root, f, data);
    s := data;
    var top := l.groupLeader(start);
    var leader := top;
    var parent := l.firstThread(leader);
    var child: Option<Pid> := None;
    var inList := false;                        // inside the child loop of thread `parent`
    ghost var w, p, i: nat, j: nat := Top, root, 0, 0;
    assert root.threads[0..] == root.threads;
    while true
      invariant At(l, root, w, p) && p.leader == leader && i <= |p.threads| && parent == TidAt(p, i)
      invariant inList ==> i < |p.threads| && j <= |p.threads[i].kids| && child == KidAt(p.threads[i], j)
      invariant Visit(root, f, data) == if inList then FromKid(w, p, i, j, f, s) else FromThread(w, p, i, f, s)
      decreases Left(w) + (if inList then 1 + LeftInProc(p, i, j) else 1 + SizeThreads(p.threads[i..])), inList
    {
      if inList {
        if child.Some? {
          CallKid(w, p, i, j, f, s);
          SizeKidsStep(p.threads[i].kids, j);
          var r := f(child.value, s);
          s := r.1;
          if r.0 < 0 { return; }
          if r.0 > 0 {
            Descend(l, root, w, p, i, j);
            w, p, i := Below(w, p, i, j), p.threads[i].kids[j], 0;
            assert p.threads[0..] == p.threads;
            leader := child.value;              // goto down
            parent := l.firstThread(leader);
            inList := false;
          } else {
            Descend(l, root, w, p, i, j);
            Climb(l, root, Below(w, p, i, j), p.threads[i].kids[j]);
            child := l.nextSibling(child.value);
            j := j + 1;
          }
        } else {
          CloseThread(w, p, i, f, s);
          Threads(l, p, i);
          parent := l.nextThread(parent.value);
          i := i + 1;
          inList := false;
        }
      } else if parent.Some? {
        OpenThread(w, p, i, f, s);
        Threads(l, p, i);
        SizeThreadsStep(p.threads, i);
        assert p.threads[i].kids[0..] == p.threads[i].kids;
        child := l.firstChild(parent.value);
        j := 0;
        inList := true;
      } else {
        AtTop(l, root, w, p);
        if w.Below? { Climb(l, root, w, p); }
        CloseProc(w, p, f, s);
        if leader == top { return; }
        var done := leader;
        parent := Some(l.realParent(done));
        leader := l.groupLeader(parent.value);
        child := l.nextSibling(done);           // goto up
        w, p, i, j := w.outer, w.proc, w.i, w.j + 1;
        inList := true;
      }
    }
  }
}
