/** Trees of task groups. */
module GroupTree {

  type Id = nat

  /** A task group and its children, in list order. */
  datatype Tree = Node(id: Id, kids: seq<Tree>)

  function Ids(t: Tree): set<Id>
    decreases t, 1
  {
    {t.id} + IdsAll(t.kids)
  }

  function IdsAll(ts: seq<Tree>): set<Id>
    decreases ts, 0
  {
    if ts == [] then {} else Ids(ts[0]) + IdsAll(ts[1..])
  }

  /** Groups are distinct objects. */
  predicate Distinct(t: Tree)
    decreases t, 1
  {
    t.id !in IdsAll(t.kids) && DistinctAll(t.kids)
  }

  predicate DistinctAll(ts: seq<Tree>)
    decreases ts, 0
  {
    ts != [] ==> Distinct(ts[0]) && DistinctAll(ts[1..]) && Ids(ts[0]) !! IdsAll(ts[1..])
  }
}
