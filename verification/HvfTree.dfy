/**
 The value-ordered tree of the HVF runqueue: the descent loop that finds where to link a new
 node, and in-order neighbours. Rebalancing is a parameter: any function on trees that leaves
 the in-order sequence alone.
 */
module HvfTree {
  import opened Basics

  type Id = nat

  datatype Tree = Leaf | Node(left: Tree, id: Id, right: Tree)

  function InOrder(t: Tree): seq<Id> {
    if t.Leaf? then [] else InOrder(t.left) + [t.id] + InOrder(t.right)
  }

  predicate KeepsOrderOf(rebalance: Tree -> Tree, t: Tree) {
    InOrder(rebalance(t)) == InOrder(t)
  }

  ghost predicate KeepsOrder(rebalance: Tree -> Tree) {
    forall t :: KeepsOrderOf(rebalance, t)
  }

  /** Ascending by value. */
  predicate Sorted(s: seq<Id>, val: Id -> int) {
    forall i, j :: 0 <= i < j < |s| ==> val(s[i]) <= val(s[j])
  }

  /** How many lead the sequence with a value below `v`: the place ahead of all equal values. */
  function Place(s: seq<Id>, val: Id -> int, v: int): (i: nat)
    ensures i <= |s| && (forall j :: 0 <= j < i ==> val(s[j]) < v) && (i < |s| ==> v <= val(s[i]))
  {
    if s == [] || v <= val(s[0]) then 0 else 1 + Place(s[1..], val, v)
  }

  function InsertedAt(s: seq<Id>, i: nat, id: Id): seq<Id>
    requires i <= |s|
  {
    s[..i] + [id] + s[i..]
  }

  /** The place is determined by what is below and above it. */
  lemma {:induction false} PlaceIsUnique(s: seq<Id>, val: Id -> int, v: int, i: nat)
    requires i <= |s| && (forall j :: 0 <= j < i ==> val(s[j]) < v) && (i < |s| ==> v <= val(s[i]))
    ensures i == Place(s, val, v)
  {
    var k := Place(s, val, v);
    assert !(i < k) && !(k < i);
  }

  // ---- The descent: the steps taken from the root, innermost first.

  datatype Trail = Root | WentLeft(up: Trail, id: Id, right: Tree) | WentRight(up: Trail, left: Tree, id: Id)

  /** The tree with `t` hung at the end of the trail. */
  function Plug(trail: Trail, t: Tree): Tree {
    match trail
    case Root => t
    case WentLeft(up, id, right) => Plug(up, Node(t, id, right))
    case WentRight(up, left, id) => Plug(up, Node(left, id, t))
  }

  function Before(trail: Trail): seq<Id> {
    match trail
    case Root => []
    case WentLeft(up, _, _) => Before(up)
    case WentRight(up, left, id) => Before(up) + InOrder(left) + [id]
  }

  function After(trail: Trail): seq<Id> {
    match trail
    case Root => []
    case WentLeft(up, id, right) => [id] + InOrder(right) + After(up)
    case WentRight(up, _, _) => After(up)
  }

  /** The in-order sequence, seen from a node on the way down. */
  function Around(trail: Trail, t: Tree): seq<Id> {
    Before(trail) + InOrder(t) + After(trail)
  }

  lemma StepLeft(trail: Trail, t: Tree, id: Id, right: Tree)
    ensures Around(WentLeft(trail, id, right), t) == Around(trail, Node(t, id, right))
  {
    var a, b, c, d := Before(trail), InOrder(t), InOrder(right), After(trail);
    assert a + b + ([id] + c + d) == a + (b + [id] + c) + d;
  }

  lemma StepRight(trail: Trail, left: Tree, id: Id, t: Tree)
    ensures Around(WentRight(trail, left, id), t) == Around(trail, Node(left, id, t))
  {
    var a, b, c, d := Before(trail), InOrder(left), InOrder(t), After(trail);
    assert (a + b + [id]) + c + d == a + (b + [id] + c) + d;
  }

  lemma {:induction false} PlugInOrder(trail: Trail, t: Tree)
    ensures InOrder(Plug(trail, t)) == Around(trail, t)
  {
    match trail
    case Root =>
    case WentLeft(up, id, right) =>
      PlugInOrder(up, Node(t, id, right));
      StepLeft(up, t, id, right);
    case WentRight(up, left, id) =>
      PlugInOrder(up, Node(left, id, t));
      StepRight(up, left, id, t);
  }

  /** A C int: the comparison result is truncated to 32 bits. */
  function ToS32(x: int): int {
    var r := x % 0x1_0000_0000;
    if r < 0x8000_0000 then r else r - 0x1_0000_0000
  }

  lemma SmallFits(x: int)
    requires -100 <= x <= 100
    ensures ToS32(x) == x
  {
  }

  lemma UpTo(s: seq<Id>, val: Id -> int, i: nat, v: int)
    requires Sorted(s, val) && i < |s| && val(s[i]) < v
    ensures forall j :: 0 <= j < i + 1 ==> val(s[j]) < v
  {
  }

  /**
   hvf_rq_rbtree_insert: the loop descends left on smaller or equal and right on larger, links the
   node, and rebalances. In order, the node lands ahead of all nodes of equal value.
   */
  method Insert(t: Tree, id: Id, val: Id -> int, rebalance: Tree -> Tree) returns (t': Tree)
    requires KeepsOrder(rebalance) && Sorted(InOrder(t), val)
    requires 0 <= val(id) <= 100 && forall i :: 0 <= i < |InOrder(t)| ==> 0 <= val(InOrder(t)[i]) <= 100
    ensures InOrder(t') == InsertedAt(InOrder(t), Place(InOrder(t), val, val(id)), id)
  {
    var node, trail := t, Root;
    ghost var s := InOrder(t);
    while node.Node?
      invariant Plug(trail, node) == t && s == Around(trail, node)
      invariant forall j :: 0 <= j < |Before(trail)| ==> val(s[j]) < val(id)
      invariant After(trail) != [] ==> val(id) <= val(After(trail)[0])
      decreases node
    {
      ghost var here := |Before(trail)| + |InOrder(node.left)|;
      assert s[here] == node.id;
      SmallFits(val(id) - val(node.id));
      var result := ToS32(val(id) - val(node.id));
      if result <= 0 {
        StepLeft(trail, node.left, node.id, node.right);
        trail, node := WentLeft(trail, node.id, node.right), node.left;
      } else {
        StepRight(trail, node.left, node.id, node.right);
        trail, node := WentRight(trail, node.left, node.id), node.right;
        assert |Before(trail)| == here + 1;
        UpTo(s, val, here, val(id));
      }
    }
    Landed(s, trail, val, id);
    PlugInOrder(trail, Node(Leaf, id, Leaf));
    t' := Plug(trail, Node(Leaf, id, Leaf));
    assert KeepsOrderOf(rebalance, t');
    t' := rebalance(t');
  }

  lemma Landed(s: seq<Id>, trail: Trail, val: Id -> int, id: Id)
    requires s == Around(trail, Leaf)
    requires forall j :: 0 <= j < |Before(trail)| ==> val(s[j]) < val(id)
    requires After(trail) != [] ==> val(id) <= val(After(trail)[0])
    ensures Around(trail, Node(Leaf, id, Leaf)) == InsertedAt(s, Place(s, val, val(id)), id)
  {
    var i := |Before(trail)|;
    assert s[..i] == Before(trail) && s[i..] == After(trail);
    PlaceIsUnique(s, val, val(id), i);
    assert InOrder(Node(Leaf, id, Leaf)) == [id];
  }

  // ---- rb_last, rb_next, rb_prev, rb_erase, by their effect on the in-order sequence.

  function IndexOf(s: seq<Id>, id: Id): (i: nat)
    requires id in s
    ensures i < |s| && s[i] == id
  {
    if s[0] == id then 0 else 1 + IndexOf(s[1..], id)
  }

  function Without(s: seq<Id>, id: Id): seq<Id>
    requires id in s
  {
    s[..IndexOf(s, id)] + s[IndexOf(s, id) + 1..]
  }

  /** The node after `id`, if any. */
  function NextOf(s: seq<Id>, id: Id): Option<Id>
    requires id in s
  {
    if IndexOf(s, id) + 1 < |s| then Some(s[IndexOf(s, id) + 1]) else None
  }

  /** The node before `id`, if any. */
  function PrevOf(s: seq<Id>, id: Id): Option<Id>
    requires id in s
  {
    if IndexOf(s, id) > 0 then Some(s[IndexOf(s, id) - 1]) else None
  }

  function Last(s: seq<Id>): Option<Id> {
    if s == [] then None else Some(s[|s| - 1])
  }

  predicate NoDup(s: seq<Id>) {
    forall i, j :: 0 <= i < j < |s| ==> s[i] != s[j]
  }

  lemma IndexIsUnique(s: seq<Id>, i: nat)
    requires NoDup(s) && i < |s|
    ensures IndexOf(s, s[i]) == i
  {
  }

  /** Removal of a node; what is left is rebalanced by the caller. */
  function Join(a: Tree, b: Tree): Tree {
    if a.Leaf? then b else Node(a.left, a.id, Join(a.right, b))
  }

  lemma {:induction false} JoinInOrder(a: Tree, b: Tree)
    ensures InOrder(Join(a, b)) == InOrder(a) + InOrder(b)
  {
    if a.Node? {
      JoinInOrder(a.right, b);
      assert InOrder(a.left) + [a.id] + (InOrder(a.right) + InOrder(b)) == InOrder(a) + InOrder(b);
    }
  }

  /** Drops the node at in-order position `i`. */
  function Erase(t: Tree, i: nat): Tree
    requires i < |InOrder(t)|
  {
    var n := |InOrder(t.left)|;
    if i < n then Node(Erase(t.left, i), t.id, t.right)
    else if i == n then Join(t.left, t.right)
    else Node(t.left, t.id, Erase(t.right, i - n - 1))
  }

  lemma {:induction false} EraseInOrder(t: Tree, i: nat)
    requires i < |InOrder(t)|
    ensures InOrder(Erase(t, i)) == InOrder(t)[..i] + InOrder(t)[i + 1..]
  {
    var a, b := InOrder(t.left), InOrder(t.right);
    var n := |a|;
    assert InOrder(t) == a + [t.id] + b;
    if i < n {
      EraseInOrder(t.left, i);
      assert (a[..i] + a[i + 1..]) + [t.id] + b == InOrder(t)[..i] + InOrder(t)[i + 1..];
    } else if i == n {
      JoinInOrder(t.left, t.right);
    } else {
      EraseInOrder(t.right, i - n - 1);
      assert a + [t.id] + (b[..i - n - 1] + b[i - n..]) == InOrder(t)[..i] + InOrder(t)[i + 1..];
    }
  }

  // ---- Sequences in which every earlier element is below every later one.

  predicate Below(s: seq<Id>, below: (Id, Id) -> bool, i: nat, j: nat) {
    i < j < |s| ==> below(s[i], s[j])
  }

  ghost predicate Pairwise(s: seq<Id>, below: (Id, Id) -> bool) {
    forall i: nat, j: nat :: Below(s, below, i, j)
  }

  lemma PairwiseInsert(s: seq<Id>, i: nat, id: Id, below: (Id, Id) -> bool)
    requires i <= |s| && Pairwise(s, below)
    requires forall j :: 0 <= j < i ==> below(s[j], id)
    requires forall j :: i <= j < |s| ==> below(id, s[j])
    ensures Pairwise(InsertedAt(s, i, id), below)
  {
    var t := InsertedAt(s, i, id);
    forall a: nat, b: nat | a < b < |t| ensures Below(t, below, a, b) {
      if a < i { assert Below(s, below, a, if b <= i then b else b - 1); }
      if a > i { assert Below(s, below, a - 1, b - 1); }
    }
  }

  lemma PairwiseWithout(s: seq<Id>, id: Id, below: (Id, Id) -> bool)
    requires id in s && Pairwise(s, below)
    ensures Pairwise(Without(s, id), below)
  {
    var k, t := IndexOf(s, id), Without(s, id);
    forall a: nat, b: nat | a < b < |t| ensures Below(t, below, a, b) {
      assert Below(s, below, if a < k then a else a + 1, if b < k then b else b + 1);
    }
  }

  lemma PairwiseWeaken(s: seq<Id>, below: (Id, Id) -> bool, below': (Id, Id) -> bool)
    requires Pairwise(s, below)
    requires forall a, b :: a in s && b in s && below(a, b) ==> below'(a, b)
    ensures Pairwise(s, below')
  {
    forall a: nat, b: nat | a < b < |s| ensures Below(s, below', a, b) {
      assert Below(s, below, a, b);
    }
  }

  lemma InsertedMembers(s: seq<Id>, i: nat, id: Id)
    requires i <= |s|
    ensures forall x :: x in InsertedAt(s, i, id) <==> x in s || x == id
  {
    var t := InsertedAt(s, i, id);
    forall x ensures x in t <==> x in s || x == id {
      if x in s {
        var k :| 0 <= k < |s| && s[k] == x;
        assert t[if k < i then k else k + 1] == x;
      }
      assert t[i] == id;
    }
  }

  lemma WithoutMembers(s: seq<Id>, id: Id)
    requires NoDup(s) && id in s
    ensures |Without(s, id)| == |s| - 1
    ensures forall x :: x in Without(s, id) <==> x in s && x != id
  {
    var i, t := IndexOf(s, id), Without(s, id);
    forall x ensures x in t <==> x in s && x != id {
      if x in s && x != id {
        var k :| 0 <= k < |s| && s[k] == x;
        assert t[if k < i then k else k - 1] == x;
      }
    }
  }

  function Elems(s: seq<Id>): set<Id> {
    set x: Id | x in s
  }

  lemma {:induction false} SetSize(s: seq<Id>)
    requires NoDup(s)
    ensures |Elems(s)| == |s|
  {
    if s != [] {
      var t := s[1..];
      assert forall i :: 0 <= i < |t| ==> t[i] == s[i + 1];
      SetSize(t);
      assert s == [s[0]] + t;
      assert Elems(s) == Elems(t) + {s[0]};
    }
  }
}
