/**
 Conservation of concurrency ids: in every reachable state, a bit of the id bitmap is set
 exactly when the id has a holder, and the holder is unique. No premise on the interleaving.
 */
module CidOwnership {
  import opened Basics
  import opened CidModel

  /** The places an id can be: a slot, a locked section, or an agent that won a slot. */
  datatype Holder = AtSlot(cpu: Cpu) | InSection(cpu: Cpu) | InWindow(agent: Agent)

  function Held(s: State, h: Holder): Option<Cid> {
    match h
    case AtSlot(k) => if k < |s.slots| && !s.slots[k].Unset? then Some(s.slots[k].cid) else None
    case InSection(k) => if k < |s.rq| then SectionHolds(s.rq[k]) else None
    case InWindow(a) => if Win(s, a).Won? then Some(Win(s, a).cid) else None
  }

  function SectionHolds(pc: RqPc): Option<Cid> {
    match pc
    case LazyPutClear(_, c) => Some(c)
    case GetClear(c) => Some(c)
    case Install(c) => Some(c)
    case PutClear(c) => Some(c)
    case _ => None
  }

  /** A bit is set iff exactly one holder has that id. */
  ghost predicate Conserved(s: State) {
    && (forall h :: Held(s, h).Some? ==> Held(s, h).value in s.bits)
    && (forall c :: c in s.bits ==> exists h :: Held(s, h) == Some(c))
    && (forall g, h :: Held(s, g).Some? && Held(s, g) == Held(s, h) ==> g == h)
  }

  /** What a locked section knows of its slot: away from Unset only the lock holder moves it. */
  predicate SectionKnows(slot: Slot, pc: RqPc) {
    match pc
    case LazyPutTry(_, c) => slot == Lazy(c) || slot == Unset
    case LazyPutClear(_, _) => slot == Unset
    case GetTry(c) => slot == Lazy(c) || slot == Unset
    case GetClear(_) => slot == Unset
    case Alloc => slot == Unset
    case Install(_) => slot == Unset
    case PutClear(_) => slot == Unset
    case Forget => slot == Unset
    case Migrate(_, dstSet) => dstSet || slot == Unset
    case _ => true
  }

  ghost predicate OwnershipInv(s: State) {
    && Shaped(s)
    && (forall k :: 0 <= k < |s.slots| ==> SectionKnows(s.slots[k], s.rq[k]))
    && Conserved(s)
  }

  // ---- The four ways a step can affect ownership.

  ghost predicate Frame(s: State, s': State, g: Holder, h: Holder) {
    forall x :: x != g && x != h ==> Held(s', x) == Held(s, x)
  }

  lemma Unmoved(s: State, s': State)
    requires Conserved(s) && s'.bits == s.bits
    requires forall x :: Held(s', x) == Held(s, x)
    ensures Conserved(s')
  {
    forall c | c in s'.bits ensures exists h :: Held(s', h) == Some(c) {
      var h :| Held(s, h) == Some(c);
      assert Held(s', h) == Some(c);
    }
  }

  lemma Moved(s: State, s': State, g: Holder, h: Holder)
    requires Conserved(s) && s'.bits == s.bits && Frame(s, s', g, h) && g != h
    requires Held(s, h) == None && Held(s', g) == None && Held(s', h) == Held(s, g)
    ensures Conserved(s')
  {
    forall c | c in s'.bits ensures exists x :: Held(s', x) == Some(c) {
      var x :| Held(s, x) == Some(c);
      if x == g { assert Held(s', h) == Some(c); } else { assert Held(s', x) == Some(c); }
    }
  }

  lemma Released(s: State, s': State, g: Holder)
    requires Conserved(s) && Frame(s, s', g, g)
    requires Held(s, g).Some? && Held(s', g) == None && s'.bits == s.bits - {Held(s, g).value}
    ensures Conserved(s')
  {
    forall c | c in s'.bits ensures exists x :: Held(s', x) == Some(c) {
      var x :| Held(s, x) == Some(c);
      assert Held(s', x) == Some(c);
    }
  }

  lemma Acquired(s: State, s': State, g: Holder, c: Cid)
    requires Conserved(s) && Frame(s, s', g, g) && c !in s.bits
    requires Held(s, g) == None && Held(s', g) == Some(c) && s'.bits == s.bits + {c}
    ensures Conserved(s')
  {
    forall d | d in s'.bits ensures exists x :: Held(s', x) == Some(d) {
      if d == c { assert Held(s', g) == Some(d); } else {
        var x :| Held(s, x) == Some(d);
        assert Held(s', x) == Some(d);
      }
    }
  }

  // ---- Every step.

  lemma SectionKeepsKnowledge(s: State, k: Cpu)
    requires Shaped(s) && Enabled(s, Section(k)) && SectionKnows(s.slots[k], s.rq[k])
    ensures SectionKnows(SectionStep(s, k).slots[k], SectionStep(s, k).rq[k])
  {
  }

  lemma SectionFrame(s: State, k: Cpu)
    requires Shaped(s) && Enabled(s, Section(k))
    ensures Frame(s, SectionStep(s, k), AtSlot(k), InSection(k))
  {
    var s' := SectionStep(s, k);
    assert s'.windows == s.windows;
    assert forall j :: 0 <= j < |s.slots| && j != k ==> s'.slots[j] == s.slots[j] && s'.rq[j] == s.rq[j];
  }

  lemma SectionConserves(s: State, k: Cpu)
    requires OwnershipInv(s) && Enabled(s, Section(k))
    ensures Conserved(SectionStep(s, k))
  {
    var s' := SectionStep(s, k);
    SectionFrame(s, k);
    assert SectionKnows(s.slots[k], s.rq[k]);
    var slot, pc := AtSlot(k), InSection(k);
    if s.rq[k].LazyPutClear? || s.rq[k].GetClear? || s.rq[k].PutClear? {
      Released(s, s', pc);
    } else if s.rq[k].Install? {
      Moved(s, s', pc, slot);
    } else if s'.slots[k] != s.slots[k] {
      Moved(s, s', slot, pc);
    } else {
      assert Held(s', slot) == Held(s, slot) && Held(s', pc) == Held(s, pc);
      Unmoved(s, s');
    }
  }

  lemma AgentKeepsKnowledge(s: State, a: Agent)
    requires OwnershipInv(s) && Enabled(s, Advance(a))
    ensures Shaped(AgentStep(s, a))
    ensures forall k :: 0 <= k < |s.slots| ==> SectionKnows(AgentStep(s, a).slots[k], AgentStep(s, a).rq[k])
  {
    AgentKeepsShape(s, a);
    var s' := AgentStep(s, a);
    assert WindowShaped(s, a, s.windows[a]);
    forall k | 0 <= k < |s.slots| ensures SectionKnows(s'.slots[k], s'.rq[k]) {
      assert SectionKnows(s.slots[k], s.rq[k]);
    }
  }

  lemma WonConserves(s: State, a: Agent)
    requires OwnershipInv(s) && Enabled(s, Advance(a)) && Win(s, a).Won?
    ensures Conserved(AgentStep(s, a))
    ensures var s', c := AgentStep(s, a), Win(s, a).cid;
      if a.Stealer? && a.dst < |s.rq| && s.rq[a.dst].Migrate? && !s.rq[a.dst].dstSet then
        s'.bits == s.bits && a.dst < |s.slots| && s.slots[a.dst].Unset? && s'.slots == s.slots[a.dst := Valid(c)]
      else s'.bits == s.bits - {c} && s'.slots == s.slots
  {
    var s' := AgentStep(s, a);
    assert WindowShaped(s, a, s.windows[a]);
    assert forall b :: b != a ==> Win(s', b) == Win(s, b);
    if a.Stealer? && !s.rq[a.dst].dstSet {
      assert SectionKnows(s.slots[a.dst], s.rq[a.dst]);
      Moved(s, s', InWindow(a), AtSlot(a.dst));
    } else {
      Released(s, s', InWindow(a));
    }
  }

  lemma AgentConserves(s: State, a: Agent)
    requires OwnershipInv(s) && Enabled(s, Advance(a)) && !Win(s, a).Won?
    ensures Conserved(AgentStep(s, a))
  {
    var s' := AgentStep(s, a);
    var w := Win(s, a);
    AgentTouches(s, a);
    assert WindowShaped(s, a, s.windows[a]);
    assert s'.rq == s.rq && s'.bits == s.bits;
    if w.Unused? && s.slots[w.cpu] == Lazy(w.cid) {
      Moved(s, s', AtSlot(w.cpu), InWindow(a));
    } else {
      assert forall k :: Held(s', AtSlot(k)) == Held(s, AtSlot(k));
      Unmoved(s, s');
    }
  }

  lemma SectionKeepsOwnership(s: State, k: Cpu)
    requires OwnershipInv(s) && Enabled(s, Section(k))
    ensures OwnershipInv(SectionStep(s, k))
  {
    var s' := SectionStep(s, k);
    SectionKeepsShape(s, k);
    SectionConserves(s, k);
    SectionKeepsKnowledge(s, k);
    forall j | 0 <= j < |s'.slots| ensures SectionKnows(s'.slots[j], s'.rq[j]) {
      assert SectionKnows(s.slots[j], s.rq[j]);
    }
  }

  /** Steps that touch no slot and no id. */
  lemma QuietKeepsOwnership(s: State, e: Step)
    requires OwnershipInv(s) && Enabled(s, e) && !e.Section? && !e.Advance? && !e.Take?
    ensures OwnershipInv(Apply(s, e))
  {
    var s' := Apply(s, e);
    StepKeepsShape(s, e);
    assert s'.slots == s.slots && s'.bits == s.bits;
    forall x ensures Held(s', x) == Held(s, x) {
    }
    Unmoved(s, s');
  }

  lemma StepConserves(s: State, e: Step)
    requires OwnershipInv(s) && Enabled(s, e)
    ensures OwnershipInv(Apply(s, e))
  {
    match e
    case Section(k) => SectionKeepsOwnership(s, k);
    case Advance(a) =>
      AgentKeepsKnowledge(s, a);
      if Win(s, a).Won? { WonConserves(s, a); } else { AgentConserves(s, a); }
    case Take(k, c) =>
      StepKeepsShape(s, e);
      assert SectionKnows(s.slots[k], s.rq[k]);
      Acquired(s, Apply(s, e), InSection(k), c);
    case _ => QuietKeepsOwnership(s, e);
  }

  lemma InitConserved(s: State)
    requires Init(s)
    ensures OwnershipInv(s)
  {
  }

  /** Ownership holds in every state of every run. */
  lemma {:induction false} RunConserves(states: seq<State>, steps: seq<Step>, i: nat)
    requires IsRun(states, steps) && i < |states|
    ensures OwnershipInv(states[i])
  {
    if i == 0 {
      InitConserved(states[0]);
    } else {
      RunConserves(states, steps, i - 1);
      assert FollowsAt(states, steps, i - 1);
      StepConserves(states[i - 1], steps[i - 1]);
    }
  }

  /** No two per-CPU slots ever hold the same id, and every held id is marked as taken. */
  lemma SlotsNeverShareAnId(states: seq<State>, steps: seq<Step>, i: nat, j: Cpu, k: Cpu)
    requires IsRun(states, steps) && i < |states|
    requires j < |states[i].slots| && k < |states[i].slots| && j != k
    requires !states[i].slots[j].Unset? && !states[i].slots[k].Unset?
    ensures states[i].slots[j].cid != states[i].slots[k].cid
    ensures states[i].slots[j].cid in states[i].bits
  {
    RunConserves(states, steps, i);
    assert Held(states[i], AtSlot(j)).Some? && Held(states[i], AtSlot(k)).Some?;
  }
}
