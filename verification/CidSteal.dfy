/**
 What becomes of an id that an agent takes away from a slot, whatever else happens meanwhile: a
 migration steal stores it in the destination slot, or frees it if that is set; a remote clear
 frees it. Stated over paths, in terms of slots and bits only.
 */
module CidSteal {
  import opened Basics
  import opened CidModel

  /** The step is one of this agent's. */
  predicate IsBy(e: Step, a: Agent) {
    (e.Advance? || e.Look?) && e.agent == a
  }

  predicate Busy(s: State, dst: Cpu) {
    dst < |s.rq| && !s.rq[dst].Free?
  }

  /** Step `i` begins a steal from `src` to `dst`, and state `n` is the next one in which `dst` is free again. */
  ghost predicate IsSteal(states: seq<State>, steps: seq<Step>, i: nat, n: nat, dst: Cpu, src: Cpu, dstSet: bool) {
    && IsPath(states, steps) && i + 1 < n < |states| && steps[i] == StealBegin(dst, src, dstSet)
    && (forall m: nat :: i < m < n ==> Busy(states[m], dst))
    && dst < |states[n].rq| && states[n].rq[dst].Free?
  }

  /** Step `m` is the agent's and unsets the slot of `k`, which held `c`. */
  predicate Takes(states: seq<State>, steps: seq<Step>, m: nat, a: Agent, k: Cpu, c: Cid) {
    && m < |steps| < |states| && IsBy(steps[m], a)
    && k < |states[m].slots| && k < |states[m + 1].slots|
    && !states[m].slots[k].Unset? && states[m].slots[k].cid == c && states[m + 1].slots[k].Unset?
  }

  // ---- One step.

  /** The destination stays locked for the steal until its last step. */
  lemma LockStays(s: State, e: Step, dst: Cpu)
    requires Shaped(s) && Enabled(s, e) && dst < |s.rq| && s.rq[dst].Migrate?
    ensures var s' := Apply(s, e);
      && dst < |s'.rq|
      && (s'.rq[dst] == s.rq[dst] || s'.rq[dst].Free?)
      && (s'.rq[dst].Free? ==>
           e == StealEnd(dst) || (e == Advance(Stealer(dst)) && Win(s, Stealer(dst)).Won? && !s.rq[dst].dstSet))
  {
    if e.Advance? { AgentTouches(s, e.agent); }
  }

  /** Another's step does not move an agent. */
  lemma OthersLeaveWindow(s: State, e: Step, a: Agent)
    requires Shaped(s) && Enabled(s, e) && !IsBy(e, a)
    ensures Win(Apply(s, e), a) == Win(s, a)
  {
    if e.Advance? { AgentTouches(s, e.agent); }
  }

  /** An agent that unsets a slot owns the id it held. */
  lemma TakingWins(s: State, e: Step, a: Agent, k: Cpu)
    requires Shaped(s) && Enabled(s, e) && IsBy(e, a) && k < |s.slots|
    requires !s.slots[k].Unset? && Apply(s, e).slots[k].Unset?
    ensures e == Advance(a) && Win(Apply(s, e), a) == Won(k, s.slots[k].cid) && Apply(s, e).bits == s.bits
  {
  }

  // ---- A steal.

  lemma {:induction false} LockedThroughout(states: seq<State>, steps: seq<Step>, i: nat, n: nat, dst: Cpu, src: Cpu, dstSet: bool, m: nat)
    requires IsSteal(states, steps, i, n, dst, src, dstSet) && i < m < n
    ensures Shaped(states[m]) && dst < |states[m].rq| && states[m].rq[dst] == Migrate(src, dstSet)
  {
    assert FollowsAt(states, steps, m - 1) && FollowsAt(states, steps, m);
    if m > i + 1 {
      LockedThroughout(states, steps, i, n, dst, src, dstSet, m - 1);
      assert Busy(states[m], dst);
      LockStays(states[m - 1], steps[m - 1], dst);
    }
  }

  lemma StillBusy(states: seq<State>, steps: seq<Step>, i: nat, n: nat, dst: Cpu, src: Cpu, dstSet: bool, m: nat)
    requires IsSteal(states, steps, i, n, dst, src, dstSet) && i < m < n
    ensures m + 1 == n || Busy(states[m + 1], dst)
  {
  }

  /** With the destination unset, no step of the steal changes the bitmap: no id is freed, none is taken. */
  lemma StealKeepsBits(states: seq<State>, steps: seq<Step>, i: nat, n: nat, dst: Cpu, src: Cpu, m: nat)
    requires IsSteal(states, steps, i, n, dst, src, false) && i < m < n && IsBy(steps[m], Stealer(dst))
    ensures states[m + 1].bits == states[m].bits
  {
    LockedThroughout(states, steps, i, n, dst, src, false, m);
    assert FollowsAt(states, steps, m);
  }

  /** From the step that takes the id on, the stealer owns it until its next step. */
  lemma {:induction false} OwnsUntilNext(states: seq<State>, steps: seq<Step>, m: nat, j: nat, a: Agent, k: Cpu, c: Cid)
    requires IsPath(states, steps) && m < j < |states| && Takes(states, steps, m, a, k, c)
    requires forall x: nat :: m < x < j ==> !IsBy(steps[x], a)
    ensures Win(states[j], a) == Won(k, c)
    decreases j
  {
    assert FollowsAt(states, steps, j - 1);
    if j == m + 1 {
      TakingWins(states[m], steps[m], a, k);
    } else {
      OwnsUntilNext(states, steps, m, j - 1, a, k, c);
      OthersLeaveWindow(states[j - 1], steps[j - 1], a);
    }
  }

  /** The first step of the agent after step `m`, if there is one before state `n`. */
  lemma {:induction false} NextStepOf(steps: seq<Step>, m: nat, n: nat, a: Agent) returns (j: nat)
    requires m < n <= |steps|
    ensures m < j <= n && (forall x: nat :: m < x < j ==> !IsBy(steps[x], a)) && (j < n ==> IsBy(steps[j], a))
    decreases n - m
  {
    j := m + 1;
    while j < n && !IsBy(steps[j], a)
      invariant m < j <= n && forall x: nat :: m < x < j ==> !IsBy(steps[x], a)
    {
      j := j + 1;
    }
  }

  /** When the steal is over, the stealer owns nothing. */
  lemma IdleAtEnd(states: seq<State>, steps: seq<Step>, i: nat, n: nat, dst: Cpu, src: Cpu, dstSet: bool)
    requires IsSteal(states, steps, i, n, dst, src, dstSet)
    ensures Win(states[n], Stealer(dst)).Idle?
  {
    LockedThroughout(states, steps, i, n, dst, src, dstSet, n - 1);
    assert FollowsAt(states, steps, n - 1);
    LockStays(states[n - 1], steps[n - 1], dst);
  }

  /** What the stealer does next after taking an id, while the destination is still locked. */
  lemma NextAfterTaking(states: seq<State>, steps: seq<Step>, i: nat, n: nat, dst: Cpu, src: Cpu, dstSet: bool, m: nat, c: Cid)
    returns (j: nat)
    requires IsSteal(states, steps, i, n, dst, src, dstSet) && i < m < n && Takes(states, steps, m, Stealer(dst), src, c)
    ensures m < j < n && steps[j] == Advance(Stealer(dst)) && Shaped(states[j]) && states[j].rq[dst] == Migrate(src, dstSet)
    ensures Win(states[j], Stealer(dst)) == Won(src, c) && forall x: nat :: m < x < j ==> !IsBy(steps[x], Stealer(dst))
  {
    var a := Stealer(dst);
    j := NextStepOf(steps, m, n, a);
    OwnsUntilNext(states, steps, m, j, a, src, c);
    IdleAtEnd(states, steps, i, n, dst, src, dstSet);
    LockedThroughout(states, steps, i, n, dst, src, dstSet, j);
    assert FollowsAt(states, steps, j);
  }

  /**
   With the destination unset, the id that the steal takes from the source is in the destination
   slot when the steal is over: it has moved, whatever other CPUs and agents did meanwhile.
   */
  lemma StolenIdIsMoved(states: seq<State>, steps: seq<Step>, i: nat, n: nat, dst: Cpu, src: Cpu, m: nat, c: Cid)
    requires IsSteal(states, steps, i, n, dst, src, false) && i < m < n && Takes(states, steps, m, Stealer(dst), src, c)
    ensures dst < |states[n].slots| && states[n].slots[dst] == Valid(c) && states[n].bits == states[n - 1].bits
  {
    var j := NextAfterTaking(states, steps, i, n, dst, src, false, m, c);
    StillBusy(states, steps, i, n, dst, src, false, j);
    assert FollowsAt(states, steps, j);
  }

  /** With the destination set, the id is freed before the steal is over, by one step that changes no slot. */
  lemma StolenIdIsFreed(states: seq<State>, steps: seq<Step>, i: nat, n: nat, dst: Cpu, src: Cpu, m: nat, c: Cid) returns (j: nat)
    requires IsSteal(states, steps, i, n, dst, src, true) && i < m < n && Takes(states, steps, m, Stealer(dst), src, c)
    ensures m < j < n && IsBy(steps[j], Stealer(dst)) && (forall x: nat :: m < x < j ==> !IsBy(steps[x], Stealer(dst)))
    ensures states[j + 1].bits == states[j].bits - {c} && states[j + 1].slots == states[j].slots
  {
    j := NextAfterTaking(states, steps, i, n, dst, src, true, m, c);
    assert FollowsAt(states, steps, j);
  }

  /** With the destination set, no step of the steal touches the destination slot. */
  lemma StealLeavesSetSlot(states: seq<State>, steps: seq<Step>, i: nat, n: nat, dst: Cpu, src: Cpu, m: nat)
    requires IsSteal(states, steps, i, n, dst, src, true) && i < m < n && IsBy(steps[m], Stealer(dst)) && dst != src
    ensures dst < |states[m].slots| && dst < |states[m + 1].slots| && states[m + 1].slots[dst] == states[m].slots[dst]
  {
    LockedThroughout(states, steps, i, n, dst, src, true, m);
    assert FollowsAt(states, steps, m);
    StealerStaysOnSource(states[m], dst);
  }

  lemma StealerStaysOnSource(s: State, dst: Cpu)
    requires Shaped(s) && dst < |s.rq| && s.rq[dst].Migrate?
    ensures !Win(s, Stealer(dst)).Idle? ==> Win(s, Stealer(dst)).cpu == s.rq[dst].src
  {
    if Stealer(dst) in s.windows { assert WindowShaped(s, Stealer(dst), s.windows[Stealer(dst)]); }
  }

  /** An id that the stealer owns, it has taken from the source in this steal. */
  lemma {:induction false} OwnedWasTaken(states: seq<State>, steps: seq<Step>, i: nat, n: nat, dst: Cpu, src: Cpu, dstSet: bool, m: nat, c: Cid)
    returns (x: nat)
    requires IsSteal(states, steps, i, n, dst, src, dstSet) && i < m < n && Win(states[m], Stealer(dst)) == Won(src, c)
    ensures i < x < m && Takes(states, steps, x, Stealer(dst), src, c)
    decreases m
  {
    IdleAtStart(states, steps, i, n, dst, src, dstSet);
    if m > i + 1 {
      assert FollowsAt(states, steps, m - 1);
      LockedThroughout(states, steps, i, n, dst, src, dstSet, m - 1);
      if Win(states[m - 1], Stealer(dst)) == Won(src, c) {
        x := OwnedWasTaken(states, steps, i, n, dst, src, dstSet, m - 1, c);
      } else {
        if !IsBy(steps[m - 1], Stealer(dst)) { OthersLeaveWindow(states[m - 1], steps[m - 1], Stealer(dst)); }
        x := m - 1;
      }
    }
  }

  lemma IdleAtStart(states: seq<State>, steps: seq<Step>, i: nat, n: nat, dst: Cpu, src: Cpu, dstSet: bool)
    requires IsSteal(states, steps, i, n, dst, src, dstSet)
    ensures Win(states[i + 1], Stealer(dst)).Idle?
  {
    assert FollowsAt(states, steps, i);
    NotStealingYet(states[i], dst);
  }

  lemma NotStealingYet(s: State, dst: Cpu)
    requires Shaped(s) && dst < |s.rq| && s.rq[dst].Free?
    ensures Win(s, Stealer(dst)).Idle?
  {
    if Stealer(dst) in s.windows { assert WindowShaped(s, Stealer(dst), s.windows[Stealer(dst)]); }
  }

  /** The steal stores in the destination slot only an id that it has taken from the source. */
  lemma OnlyStolenIdsArrive(states: seq<State>, steps: seq<Step>, i: nat, n: nat, dst: Cpu, src: Cpu, m: nat) returns (x: nat, c: Cid)
    requires IsSteal(states, steps, i, n, dst, src, false) && i < m < n && IsBy(steps[m], Stealer(dst)) && dst != src
    requires dst < |states[m].slots| && dst < |states[m + 1].slots| && states[m + 1].slots[dst] != states[m].slots[dst]
    ensures i < x < m && Takes(states, steps, x, Stealer(dst), src, c) && states[m + 1].slots[dst] == Valid(c) && n == m + 1
  {
    LockedThroughout(states, steps, i, n, dst, src, false, m);
    StillBusy(states, steps, i, n, dst, src, false, m);
    assert FollowsAt(states, steps, m);
    StealerStaysOnSource(states[m], dst);
    c := Win(states[m], Stealer(dst)).cid;
    x := OwnedWasTaken(states, steps, i, n, dst, src, false, m, c);
  }

  // ---- A remote clear.

  /** The id that a clear takes from a slot is freed by its next step, which changes no slot. */
  lemma ClearedIdIsFreed(states: seq<State>, steps: seq<Step>, m: nat, j: nat, a: Agent, k: Cpu, c: Cid)
    requires IsPath(states, steps) && a.Clearer? && m < j < |steps| && Takes(states, steps, m, a, k, c)
    requires IsBy(steps[j], a) && forall x: nat :: m < x < j ==> !IsBy(steps[x], a)
    ensures states[j + 1].bits == states[j].bits - {c} && states[j + 1].slots == states[j].slots
  {
    OwnsUntilNext(states, steps, m, j, a, k, c);
    assert FollowsAt(states, steps, j);
  }

  /** No other step of a clear frees an id, and none takes one. */
  lemma ClearKeepsBits(states: seq<State>, steps: seq<Step>, j: nat, a: Agent)
    requires IsPath(states, steps) && a.Clearer? && j < |steps| && IsBy(steps[j], a) && !Win(states[j], a).Won?
    ensures states[j + 1].bits == states[j].bits
  {
    assert FollowsAt(states, steps, j);
  }
}
