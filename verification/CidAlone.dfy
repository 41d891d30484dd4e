/**
 What each operation of the protocol does when nobody disturbs it, in terms of slots, bits and tasks
 before and after: a remote clear, a migration steal, a context switch, and giving up and getting
 an id around exec and exit.
 */
module CidAlone {
  import opened Basics
  import opened CidModel
  import opened CidSteal

  /** The steps, and nothing else, lead from `s` to `t`. */
  ghost predicate Leads(s: State, es: seq<Step>, t: State) {
    Shaped(t) && exists states: seq<State> :: IsPathOf(states, es, s, t)
  }

  ghost predicate IsPathOf(states: seq<State>, es: seq<Step>, s: State, t: State) {
    IsPath(states, es) && states[0] == s && states[|es|] == t
  }

  lemma Start(s: State)
    requires Shaped(s)
    ensures Leads(s, [], s)
  {
    assert IsPathOf([s], [], s, s);
  }

  lemma Do(s: State, es: seq<Step>, t: State, e: Step) returns (es': seq<Step>)
    requires Leads(s, es, t) && Enabled(t, e)
    ensures es' == es + [e] && Leads(s, es', Apply(t, e))
  {
    es' := es + [e];
    StepKeepsShape(t, e);
    var states: seq<State> :| IsPathOf(states, es, s, t);
    var states' := states + [Apply(t, e)];
    forall i: nat | i < |es'| ensures FollowsAt(states', es', i) {
      if i < |es| { assert FollowsAt(states, es, i); }
    }
    assert IsPathOf(states', es', s, Apply(t, e));
  }

  lemma Concat(s: State, es: seq<Step>, t: State, fs: seq<Step>, u: State)
    requires Leads(s, es, t) && Leads(t, fs, u)
    ensures Leads(s, es + fs, u)
  {
    var p: seq<State> :| IsPathOf(p, es, s, t);
    var q: seq<State> :| IsPathOf(q, fs, t, u);
    var states, steps := p + q[1..], es + fs;
    forall i: nat | i < |steps| ensures FollowsAt(states, steps, i) {
      if i < |es| {
        assert FollowsAt(p, es, i);
      } else {
        assert FollowsAt(q, fs, i - |es|);
        assert states[i] == q[i - |es|] && states[i + 1] == q[i + 1 - |es|];
      }
    }
    assert IsPathOf(states, steps, s, u);
  }

  // ---- Agents.

  /** Nothing but slots and bits has changed, apart from an agent that is idle again. */
  ghost predicate OnlySlots(s: State, t: State, slots: seq<Slot>, bits: set<Cid>) {
    && t.slots == slots && t.bits == bits && t.curr == s.curr && t.tasks == s.tasks
    && (forall b :: Win(t, b) == Win(s, b))
  }

  predicate AllBy(es: seq<Step>, a: Agent) {
    forall i :: 0 <= i < |es| ==> IsBy(es[i], a)
  }

  /** The agent at work on an id of `k`: nothing else has changed since `s`. */
  ghost predicate AtWork(s: State, t: State, a: Agent, slots: seq<Slot>, w: Window) {
    && Shaped(t) && t.slots == slots && t.bits == s.bits && t.curr == s.curr && t.tasks == s.tasks && t.rq == s.rq
    && Win(t, a) == w && (forall b :: b != a ==> Win(t, b) == Win(s, b))
  }

  /** After the first cmpxchg and the loads, either the agent has given up or it is about to unset the slot. */
  lemma Looks(s: State, a: Agent, k: Cpu) returns (es: seq<Step>, t: State)
    requires Shaped(s) && Win(s, a).Idle? && Enabled(s, Look(a, k)) && s.slots[k].Valid?
    ensures AllBy(es, a) && Leads(s, es, t)
    ensures var c := s.slots[k].cid;
      AtWork(s, t, a, s.slots[k := Lazy(c)], if Using(s, s.curr[k]) then Idle else Unused(k, c))
  {
    var c, task := s.slots[k].cid, s.curr[k];
    Start(s);
    es := Do(s, [], s, Look(a, k));
    var t1 := s.(windows := s.windows[a := Seen(k, c)]);
    es := Do(s, es, t1, Advance(a));
    var t2 := s.(slots := s.slots[k := Lazy(c)], windows := s.windows[a := Seen(k, c)][a := Marked(k, c)]);
    assert t2 == AgentStep(t1, a);
    es := Do(s, es, t2, Advance(a));
    var t3 := t2.(windows := t2.windows[a := Loaded(k, c, task)]);
    es, t := Judges(s, es, t3, a, k, c);
  }

  lemma Judges(s: State, es: seq<Step>, t: State, a: Agent, k: Cpu, c: Cid) returns (es': seq<Step>, t': State)
    requires Leads(s, es, t) && AllBy(es, a) && k < |s.slots| && Shaped(s) && AtWork(s, t, a, s.slots[k := Lazy(c)], Loaded(k, c, s.curr[k]))
    ensures AllBy(es', a) && Leads(s, es', t')
    ensures AtWork(s, t', a, s.slots[k := Lazy(c)], if Using(s, s.curr[k]) then Idle else Unused(k, c))
  {
    var task := s.curr[k];
    es' := Do(s, es, t, Advance(a));
    t' := AgentStep(t, a);
    if s.tasks[task].active {
      es' := Do(s, es', t', Advance(a));
      t' := AgentStep(t', a);
    }
  }

  /** A remote clear on its own: an unused id is freed, one in use is marked lazy, anything else is left alone. */
  lemma ClearAlone(s: State, a: Agent, k: Cpu) returns (es: seq<Step>, t: State)
    requires Shaped(s) && a.Clearer? && Win(s, a).Idle? && k < |s.slots|
    ensures AllBy(es, a) && Leads(s, es, t) && t.rq == s.rq
    ensures if !s.slots[k].Valid? then OnlySlots(s, t, s.slots, s.bits)
      else if Using(s, s.curr[k]) then OnlySlots(s, t, s.slots[k := Lazy(s.slots[k].cid)], s.bits)
      else OnlySlots(s, t, s.slots[k := Unset], s.bits - {s.slots[k].cid})
  {
    if !s.slots[k].Valid? {
      Start(s);
      es := Do(s, [], s, Look(a, k));
      t := s;
    } else {
      es, t := Looks(s, a, k);
      if !Using(s, s.curr[k]) {
        var c := s.slots[k].cid;
        es := Do(s, es, t, Advance(a));
        var t1 := AgentStep(t, a);
        assert t1.slots == s.slots[k := Unset];
        es := Do(s, es, t1, Advance(a));
        t := AgentStep(t1, a);
      }
    }
  }

  predicate OfSteal(es: seq<Step>, dst: Cpu) {
    forall i :: 0 <= i < |es| ==> (es[i].StealBegin? && es[i].dst == dst) || (es[i].StealEnd? && es[i].dst == dst) || IsBy(es[i], Stealer(dst))
  }

  /**
   A migration steal on its own: an unused id of the source moves to the destination slot, or is
   freed if that is set; one in use is marked lazy, anything else is left alone.
   */
  lemma StealAlone(s: State, dst: Cpu, src: Cpu, dstSet: bool) returns (es: seq<Step>, t: State)
    requires Shaped(s) && Enabled(s, StealBegin(dst, src, dstSet))
    ensures OfSteal(es, dst) && Leads(s, es, t) && t.rq == s.rq
    ensures if !s.slots[src].Valid? then OnlySlots(s, t, s.slots, s.bits)
      else if Using(s, s.curr[src]) then OnlySlots(s, t, s.slots[src := Lazy(s.slots[src].cid)], s.bits)
      else if dstSet then OnlySlots(s, t, s.slots[src := Unset], s.bits - {s.slots[src].cid})
      else OnlySlots(s, t, s.slots[src := Unset][dst := s.slots[src]], s.bits)
  {
    NotStealingYet(s, dst);
    Start(s);
    es := Do(s, [], s, StealBegin(dst, src, dstSet));
    t := Apply(s, StealBegin(dst, src, dstSet));
    if s.slots[src].Valid? {
      var fs, u := Looks(t, Stealer(dst), src);
      Concat(s, es, t, fs, u);
      es := es + fs;
      es, t := Finishes(s, es, u, dst, src, dstSet);
    } else {
      es := Do(s, es, t, StealEnd(dst));
      t := Apply(t, StealEnd(dst));
      assert t.rq == s.rq;
    }
  }

  /** The end of a steal that has marked the source slot. */
  lemma Finishes(s: State, es: seq<Step>, t: State, dst: Cpu, src: Cpu, dstSet: bool) returns (es': seq<Step>, t': State)
    requires Shaped(s) && Enabled(s, StealBegin(dst, src, dstSet)) && s.slots[src].Valid? && Win(s, Stealer(dst)).Idle?
    requires OfSteal(es, dst) && Leads(s, es, t)
    requires AtWork(Apply(s, StealBegin(dst, src, dstSet)), t, Stealer(dst), s.slots[src := Lazy(s.slots[src].cid)],
      if Using(s, s.curr[src]) then Idle else Unused(src, s.slots[src].cid))
    ensures OfSteal(es', dst) && Leads(s, es', t') && t'.rq == s.rq
    ensures if Using(s, s.curr[src]) then OnlySlots(s, t', s.slots[src := Lazy(s.slots[src].cid)], s.bits)
      else if dstSet then OnlySlots(s, t', s.slots[src := Unset], s.bits - {s.slots[src].cid})
      else OnlySlots(s, t', s.slots[src := Unset][dst := s.slots[src]], s.bits)
  {
    if Using(s, s.curr[src]) {
      es', t' := Unlocks(s, es, t, dst, src, dstSet);
    } else {
      var u;
      es', u := Wins(s, es, t, dst, src, dstSet);
      es' := Do(s, es', u, Advance(Stealer(dst)));
      t' := AgentStep(u, Stealer(dst));
      AgentTouches(u, Stealer(dst));
      if dstSet {
        es', t' := Unlocks(s, es', t', dst, src, dstSet);
      }
      assert t'.rq == s.rq;
    }
  }

  lemma Wins(s: State, es: seq<Step>, t: State, dst: Cpu, src: Cpu, dstSet: bool) returns (es': seq<Step>, t': State)
    requires Shaped(s) && Enabled(s, StealBegin(dst, src, dstSet)) && s.slots[src].Valid? && OfSteal(es, dst) && Leads(s, es, t)
    requires AtWork(Apply(s, StealBegin(dst, src, dstSet)), t, Stealer(dst), s.slots[src := Lazy(s.slots[src].cid)], Unused(src, s.slots[src].cid))
    ensures OfSteal(es', dst) && Leads(s, es', t')
    ensures AtWork(Apply(s, StealBegin(dst, src, dstSet)), t', Stealer(dst), s.slots[src := Unset], Won(src, s.slots[src].cid))
  {
    es' := Do(s, es, t, Advance(Stealer(dst)));
    t' := AgentStep(t, Stealer(dst));
  }

  /** Nothing is left to do but to release the destination. */
  lemma Unlocks(s: State, es: seq<Step>, t: State, dst: Cpu, src: Cpu, dstSet: bool) returns (es': seq<Step>, t': State)
    requires Shaped(s) && dst < |s.rq| && s.rq[dst].Free? && Win(s, Stealer(dst)).Idle? && OfSteal(es, dst) && Leads(s, es, t)
    requires t.rq == s.rq[dst := Migrate(src, dstSet)] && Win(t, Stealer(dst)).Idle?
    requires t.curr == s.curr && t.tasks == s.tasks && forall b :: b != Stealer(dst) ==> Win(t, b) == Win(s, b)
    ensures OfSteal(es', dst) && Leads(s, es', t') && t'.rq == s.rq && OnlySlots(s, t', t.slots, t.bits)
  {
    es' := Do(s, es, t, StealEnd(dst));
    t' := Apply(t, StealEnd(dst));
    assert t'.rq == s.rq;
  }

  // ---- Sections of one CPU.

  predicate OfCpu(es: seq<Step>, k: Cpu) {
    forall i :: 0 <= i < |es| ==>
      (es[i].Switch? || es[i].Section? || es[i].Take? || es[i].Deactivate? || es[i].Activate?) && es[i].cpu == k
  }

  /** The next access of the section of `k`. */
  lemma Next(s: State, es: seq<Step>, t: State, k: Cpu) returns (es': seq<Step>, t': State)
    requires Leads(s, es, t) && OfCpu(es, k) && Enabled(t, Section(k))
    ensures Leads(s, es', t') && OfCpu(es', k) && t' == SectionStep(t, k)
  {
    es' := Do(s, es, t, Section(k));
    t' := SectionStep(t, k);
  }

  /** The bits when a lazy id of the slot has been put. */
  function BitsWithout(slot: Slot, bits: set<Cid>): set<Cid> {
    if slot.Lazy? then bits - {slot.cid} else bits
  }

  /** mm_cid_get: the id of a valid slot is kept; otherwise a lazy one is put and a free one is taken. */
  function Got(t: State, k: Cpu, c: Cid): State
    requires Shaped(t) && k < |t.slots|
  {
    var slot := t.slots[k];
    var id := if slot.Valid? then slot.cid else c;
    t.(slots := t.slots[k := Valid(id)],
       bits := if slot.Valid? then t.bits else BitsWithout(slot, t.bits) + {id},
       tasks := t.tasks[t.curr[k] := t.tasks[t.curr[k]].(cid := Some(id))],
       rq := t.rq[k := Free])
  }

  lemma Allocates(s: State, es: seq<Step>, t: State, k: Cpu, c: Cid) returns (es': seq<Step>, t': State)
    requires Leads(s, es, t) && OfCpu(es, k) && k < |t.rq| && t.rq[k].Alloc? && c !in t.bits
    ensures Leads(s, es', t') && OfCpu(es', k)
    ensures t' == t.(slots := t.slots[k := Valid(c)], bits := t.bits + {c},
                     tasks := t.tasks[t.curr[k] := t.tasks[t.curr[k]].(cid := Some(c))], rq := t.rq[k := Free])
  {
    es' := Do(s, es, t, Take(k, c));
    t' := Apply(t, Take(k, c));
    es', t' := Next(s, es', t', k);
    es', t' := Next(s, es', t', k);
    assert t'.rq == t.rq[k := Free];
  }

  lemma Gets(s: State, es: seq<Step>, t: State, k: Cpu, c: Cid) returns (es': seq<Step>, t': State)
    requires Leads(s, es, t) && OfCpu(es, k) && k < |t.rq| && t.rq[k].Get? && c !in BitsWithout(t.slots[k], t.bits)
    ensures Leads(s, es', t') && OfCpu(es', k) && t' == Got(t, k, c)
  {
    es', t' := Next(s, es, t, k);
    if t.slots[k].Valid? {
      es', t' := Next(s, es', t', k);
    } else {
      if t.slots[k].Lazy? {
        es', t' := Next(s, es', t', k);
        es', t' := Next(s, es', t', k);
      }
      assert t' == t.(slots := t.slots[k := Unset], bits := BitsWithout(t.slots[k], t.bits), rq := t.rq[k := Alloc]);
      es', t' := Allocates(s, es', t', k, c);
    }
    assert t' == Got(t, k, c);
  }

  /** mm_cid_put_lazy and the end of the previous task's use. */
  function LeftBy(t: State, k: Cpu, p: Task): State
    requires Shaped(t) && k < |t.slots| && p in t.tasks
  {
    var slot := t.slots[k];
    t.(slots := t.slots[k := if slot.Lazy? then Unset else slot], bits := BitsWithout(slot, t.bits),
       tasks := t.tasks[p := t.tasks[p].(cid := None)],
       rq := t.rq[k := if Using(t, t.curr[k]) then Get else Free])
  }

  lemma Leaves(s: State, es: seq<Step>, t: State, k: Cpu, p: Task) returns (es': seq<Step>, t': State)
    requires Leads(s, es, t) && OfCpu(es, k) && k < |t.rq| && t.rq[k] == LazyPut(p) && p in t.tasks
    ensures Leads(s, es', t') && OfCpu(es', k) && t' == LeftBy(t, k, p)
  {
    es', t' := Next(s, es, t, k);
    if t.slots[k].Lazy? {
      es', t' := Next(s, es', t', k);
      es', t' := Next(s, es', t', k);
    }
    es', t' := Next(s, es', t', k);
    assert t' == LeftBy(t, k, p);
  }

  /** A context switch from the current task of `k` to `next`; `c` is the free id it takes if it needs one. */
  function Switched(s: State, k: Cpu, next: Task, c: Cid): State
    requires Shaped(s) && k < |s.slots| && next in s.tasks
  {
    var prev, slot := s.curr[k], s.slots[k];
    var put := slot.Lazy? && (Using(s, prev) || Using(s, next));
    var bits := if put then s.bits - {slot.cid} else s.bits;
    var tasks := if Using(s, prev) then s.tasks[prev := s.tasks[prev].(cid := None)] else s.tasks;
    if !Using(s, next) then
      s.(curr := s.curr[k := next], slots := s.slots[k := if put then Unset else slot], bits := bits, tasks := tasks)
    else
      var id := if slot.Valid? then slot.cid else c;
      s.(curr := s.curr[k := next], slots := s.slots[k := Valid(id)],
         bits := if slot.Valid? then bits else bits + {id},
         tasks := tasks[next := s.tasks[next].(cid := Some(id))])
  }

  /**
   A context switch on its own: a lazy id of the slot is put if either task uses the mm; the previous
   task gives up its id; the next one gets the id of a valid slot, or else any free one.
   */
  lemma SwitchAlone(s: State, k: Cpu, next: Task, c: Cid) returns (es: seq<Step>, t: State)
    requires Shaped(s) && Enabled(s, Switch(k, next)) && c !in BitsWithout(s.slots[k], s.bits)
    ensures OfCpu(es, k) && Leads(s, es, t) && t == Switched(s, k, next, c)
  {
    var prev := s.curr[k];
    assert prev != next;
    Start(s);
    es := Do(s, [], s, Switch(k, next));
    t := Apply(s, Switch(k, next));
    if Using(s, prev) {
      es, t := Leaves(s, es, t, k, prev);
    }
    if Using(s, next) {
      es, t := Gets(s, es, t, k, c);
    }
    assert t.rq == s.rq;
    assert t == Switched(s, k, next, c);
  }

  /** A forked task is a user of the mm: it has no id, and gets one when it is switched in. */
  lemma ForkedTaskGetsId(s: State, k: Cpu, task: Task, c: Cid) returns (es: seq<Step>, t: State)
    requires Shaped(s) && Enabled(s, Fork(task)) && k < |s.rq| && s.rq[k].Free? && !OnCpu(s, task) && c !in BitsWithout(s.slots[k], s.bits)
    ensures Leads(s, [Fork(task)] + es, t) && OfCpu(es, k) && k < |t.curr| && k < |t.slots| && t.curr[k] == task && task in t.tasks
    ensures task in Apply(s, Fork(task)).tasks && Apply(s, Fork(task)).tasks[task].cid == None
    ensures var id := if s.slots[k].Valid? then s.slots[k].cid else c; t.tasks[task].cid == Some(id) && t.slots[k] == Valid(id)
  {
    Start(s);
    var fs := Do(s, [], s, Fork(task));
    assert fs == [Fork(task)];
    var u := Apply(s, Fork(task));
    es, t := SwitchAlone(u, k, task, c);
    Concat(s, fs, u, es, t);
  }

  /** Giving up the id before an exec or at exit: the task is inactive, and slot and bit are cleared. */
  function PutBack(s: State, k: Cpu): State
    requires Shaped(s) && k < |s.slots|
  {
    var t, slot := s.curr[k], s.slots[k];
    s.(tasks := s.tasks[t := s.tasks[t].(active := false, cid := None)], slots := s.slots[k := Unset],
       bits := if slot.Unset? then s.bits else s.bits - {slot.cid})
  }

  lemma Puts(s: State, es: seq<Step>, t: State, k: Cpu) returns (es': seq<Step>, t': State)
    requires Leads(s, es, t) && OfCpu(es, k) && k < |t.rq| && t.rq[k].Put?
    ensures Leads(s, es', t') && OfCpu(es', k)
    ensures t' == t.(slots := t.slots[k := Unset], bits := if t.slots[k].Unset? then t.bits else t.bits - {t.slots[k].cid},
                     tasks := t.tasks[t.curr[k] := t.tasks[t.curr[k]].(cid := None)], rq := t.rq[k := Free])
  {
    es', t' := Next(s, es, t, k);
    if !t.slots[k].Unset? {
      es', t' := Next(s, es', t', k);
      es', t' := Next(s, es', t', k);
    }
    es', t' := Next(s, es', t', k);
    assert t'.rq == t.rq[k := Free] && t'.slots == t.slots[k := Unset];
  }

  lemma DeactivateAlone(s: State, k: Cpu) returns (es: seq<Step>, t: State)
    requires Shaped(s) && Enabled(s, Deactivate(k))
    ensures OfCpu(es, k) && Leads(s, es, t) && t == PutBack(s, k)
  {
    Start(s);
    es := Do(s, [], s, Deactivate(k));
    var u := Apply(s, Deactivate(k));
    es, t := Puts(s, es, u, k);
    assert t.rq == s.rq;
    assert t.tasks == PutBack(s, k).tasks;
  }

  /** After a failed exec the task is active again, with the id of a valid slot or else any free one. */
  lemma ActivateAlone(s: State, k: Cpu, c: Cid) returns (es: seq<Step>, t: State)
    requires Shaped(s) && Enabled(s, Activate(k)) && c !in BitsWithout(s.slots[k], s.bits)
    ensures OfCpu(es, k) && Leads(s, es, t) && t == GotActive(s, k, c)
  {
    Start(s);
    es := Do(s, [], s, Activate(k));
    var u := Apply(s, Activate(k));
    es, t := Gets(s, es, u, k, c);
    assert t.rq == s.rq;
    assert t.tasks == GotActive(s, k, c).tasks;
  }

  function GotActive(s: State, k: Cpu, c: Cid): State
    requires Shaped(s) && k < |s.slots|
  {
    var t, slot := s.curr[k], s.slots[k];
    var id := if slot.Valid? then slot.cid else c;
    s.(tasks := s.tasks[t := s.tasks[t].(active := true, cid := Some(id))], slots := s.slots[k := Valid(id)],
       bits := if slot.Valid? then s.bits else BitsWithout(slot, s.bits) + {id})
  }
}
