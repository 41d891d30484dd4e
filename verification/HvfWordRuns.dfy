/**
 Runs as written: what 64-bit words make of an entity along a run of the machine, and exactly when
 that is what the run has.
 */
module HvfWordRuns {
  import opened Basics
  import opened HvfTree
  import opened HvfValue
  import opened HvfRunqueue
  import opened HvfLives
  import opened HvfSystem
  import E = HvfEntity
  import opened HvfWordLives

  /** The entity that starts at move `i`, before it does. */
  ghost predicate StartsRanged(ys: seq<Sys>, moves: seq<Move>, i: nat, id: Id) {
    && Starts(ys, moves, i, id) && id in ys[i].ents
    && var e, s := Core(ys[i].ents[id]), moves[i].step;
       E.Admissible(e) && Timely(E.Start(s.now, s.flags.sec)) && Ranged(AtBirth(e, s.now, s.flags.sec))
  }

  /** The entity in state `n` of the run, computed in words from its start at move `i` on. */
  function WordEnt(ys: seq<Sys>, moves: seq<Move>, i: nat, n: nat, id: Id): E.Ent
    requires IsSysRun(ys, moves) && Starts(ys, moves, i, id) && id in ys[i].ents && i < n < |ys|
    decreases n
  {
    if n == i + 1 then WordStarted(Core(ys[i].ents[id]), moves[i].step.now, moves[i].step.flags.sec)
    else
      assert MovesAt(ys, moves, n - 1);
      WordChanged(WordEnt(ys, moves, i, n - 1, id), OnSomeCpu(ys[n - 1], id), EventAt(ys[n - 1], moves[n - 1], id))
  }

  predicate Happens(ys: seq<Sys>, moves: seq<Move>, m: nat, id: Id) {
    m < |moves| < |ys| && moves[m].cpu < |ys[m].cpus| && id in ys[m].ents
  }

  ghost predicate RangedMove(ys: seq<Sys>, moves: seq<Move>, m: nat, id: Id) {
    Happens(ys, moves, m, id) && Ranged(ys[m].ents[id]) && Timely(EventAt(ys[m], moves[m], id))
  }

  /** What move `m` demands of the entity it finds. */
  ghost predicate ExactMove(ys: seq<Sys>, moves: seq<Move>, m: nat, id: Id) {
    && Happens(ys, moves, m, id)
    && var e := Core(ys[m].ents[id]); e.parsSet && e.d1 < e.d2 && Exact(e, OnSomeCpu(ys[m], id), EventAt(ys[m], moves[m], id))
  }

  ghost predicate RangedRun(ys: seq<Sys>, moves: seq<Move>, i: nat, n: nat, id: Id) {
    StartsRanged(ys, moves, i, id) && forall m: nat :: i < m < n ==> RangedMove(ys, moves, m, id)
  }

  ghost predicate ExactRun(ys: seq<Sys>, moves: seq<Move>, i: nat, n: nat, id: Id) {
    && StartsRanged(ys, moves, i, id)
    && BirthExact(Core(ys[i].ents[id]), moves[i].step.now, moves[i].step.flags.sec)
    && forall m: nat :: i < m < n ==> ExactMove(ys, moves, m, id)
  }

  /** In state `m` the run has the entity that the words give. */
  ghost predicate AgreesAt(ys: seq<Sys>, moves: seq<Move>, i: nat, m: nat, id: Id)
    requires IsSysRun(ys, moves) && Starts(ys, moves, i, id) && id in ys[i].ents
  {
    i < m < |ys| && id in ys[m].ents && WordEnt(ys, moves, i, m, id) == Core(ys[m].ents[id])
  }

  lemma StartInWords(ys: seq<Sys>, moves: seq<Move>, i: nat, id: Id)
    requires IsSysRun(ys, moves) && StartsRanged(ys, moves, i, id)
    ensures AgreesAt(ys, moves, i, i + 1, id) <==> BirthExact(Core(ys[i].ents[id]), moves[i].step.now, moves[i].step.flags.sec)
  {
    Born(ys, moves, i, id);
    BirthIff(Core(ys[i].ents[id]), moves[i].step.now, moves[i].step.flags.sec);
  }

  /** One move, as written, makes of the entity what the run has next exactly under the condition. */
  lemma MoveInWords(ys: seq<Sys>, moves: seq<Move>, i: nat, m: nat, id: Id)
    requires IsSysRun(ys, moves) && Starts(ys, moves, i, id) && i < m < |moves| && RangedMove(ys, moves, m, id)
    ensures id in ys[m + 1].ents
    ensures WordChanged(Core(ys[m].ents[id]), OnSomeCpu(ys[m], id), EventAt(ys[m], moves[m], id)) == Core(ys[m + 1].ents[id])
      <==> ExactMove(ys, moves, m, id)
  {
    var lives, events := LifeInRun(ys, moves, i, m, id);
    assert MovesAt(ys, moves, m);
    assert StateIs(lives, ys, i, |events|, id);
    SysRunKeeps(ys, moves, m);
    MoveMirrors(ys[m], moves[m], lives[|events|], id);
    ChangedIff(lives[|events|], EventAt(ys[m], moves[m], id));
  }

  lemma AgreesNext(ys: seq<Sys>, moves: seq<Move>, i: nat, m: nat, id: Id)
    requires IsSysRun(ys, moves) && Starts(ys, moves, i, id) && id in ys[i].ents && m < |moves| && RangedMove(ys, moves, m, id)
    requires AgreesAt(ys, moves, i, m, id)
    ensures AgreesAt(ys, moves, i, m + 1, id) <==> ExactMove(ys, moves, m, id)
  {
    MoveInWords(ys, moves, i, m, id);
  }

  ghost predicate Agrees(ys: seq<Sys>, moves: seq<Move>, i: nat, n: nat, id: Id)
    requires IsSysRun(ys, moves) && Starts(ys, moves, i, id) && id in ys[i].ents
  {
    forall m: nat :: i < m <= n ==> AgreesAt(ys, moves, i, m, id)
  }

  /** Up to state `n`, what the words make of an entity is what the run has exactly when every move meets its condition. */
  lemma {:induction false} RunInWordsIff(ys: seq<Sys>, moves: seq<Move>, i: nat, n: nat, id: Id)
    requires IsSysRun(ys, moves) && i < n < |ys| && RangedRun(ys, moves, i, n, id)
    ensures Agrees(ys, moves, i, n, id) <==> ExactRun(ys, moves, i, n, id)
    decreases n
  {
    if n == i + 1 {
      StartInWords(ys, moves, i, id);
    } else {
      RunInWordsIff(ys, moves, i, n - 1, id);
      assert RangedMove(ys, moves, n - 1, id);
      if Agrees(ys, moves, i, n - 1, id) {
        assert AgreesAt(ys, moves, i, n - 1, id);
        AgreesNext(ys, moves, i, n - 1, id);
      }
    }
  }

  /** Under the condition, in every state of every run, the value as written is in 0..100 and the slice in 10..109 ms. */
  lemma RunValuesInRange(ys: seq<Sys>, moves: seq<Move>, i: nat, n: nat, id: Id)
    requires IsSysRun(ys, moves) && i < n < |ys| && RangedRun(ys, moves, i, n, id) && ExactRun(ys, moves, i, n, id)
    ensures var e := WordEnt(ys, moves, i, n, id);
      && id in ys[n].ents && e == Core(ys[n].ents[id])
      && 0 <= e.value <= H && 10 <= TimeSlice(e.value) <= 109
      && 0 <= e.used <= ys[n].now - e.first
  {
    RunInWordsIff(ys, moves, i, n, id);
    assert AgreesAt(ys, moves, i, n, id);
    RunConservesTime(ys, moves, i, n, id);
  }
}
