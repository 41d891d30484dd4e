/** The results of HvfSlice, for every entity of every run of the machine. */
module HvfRunSlice {
  import opened Basics
  import opened HvfTree
  import opened HvfValue
  import E = HvfEntity
  import S = HvfSlice
  import opened HvfRunqueue
  import opened HvfLives
  import opened HvfSystem

  /** Move `m` starts the entity over. */
  predicate Restarts(moves: seq<Move>, m: nat, id: Id) {
    m < |moves| && var s := moves[m].step; s.Enqueue? && s.id == id && s.flags.Initial?
  }

  predicate NoRestart(moves: seq<Move>, a: nat, b: nat, id: Id) {
    forall m: nat :: a <= m < b ==> !Restarts(moves, m, id)
  }

  predicate PutsPrev(s: Step, id: Id) {
    Switches(s) && s.prev == Some(id)
  }

  /** Move `m` switches away from the entity. */
  predicate Puts(moves: seq<Move>, m: nat, id: Id) {
    m < |moves| && PutsPrev(moves[m].step, id)
  }

  predicate NeverPut(moves: seq<Move>, a: nat, b: nat, id: Id) {
    forall m: nat :: a <= m < b ==> !Puts(moves, m, id)
  }

  predicate TicksOn(moves: seq<Move>, m: nat, c: nat) {
    m < |moves| && moves[m].cpu == c && moves[m].step.Tick?
  }

  /** The ticks of CPU `c` between states `a` and `b`. */
  function RunTicks(moves: seq<Move>, c: nat, a: nat, b: nat): int {
    if b <= a then 0 else RunTicks(moves, c, a, b - 1) + if TicksOn(moves, b - 1, c) then moves[b - 1].step.nsec else 0
  }

  predicate Dispatches(y: Sys, m: Move, id: Id) {
    m.cpu < |y.cpus| && m.step.Schedule? && PickTask(View(y, m.cpu).r) == Some(id)
  }

  /** Move `j` dispatches the entity, and up to state `n` it has not been put. */
  predicate DispatchedAt(ys: seq<Sys>, moves: seq<Move>, j: nat, n: nat, id: Id) {
    j < n <= |moves| < |ys| && Dispatches(ys[j], moves[j], id) && NeverPut(moves, j + 1, n, id)
  }

  predicate Flag(y: Sys, id: Id) {
    id in y.ents && y.ents[id].expired
  }

  /** Tick `m` brings the ticks of CPU `c` since the dispatch at move `j` up to the slice of the value at that moment. */
  predicate TickReaches(ys: seq<Sys>, moves: seq<Move>, c: nat, j: nat, m: nat, id: Id) {
    && TicksOn(moves, m, c) && m < |ys| && id in ys[m].ents
    && SliceUsedUp(RunTicks(moves, c, j + 1, m + 1), ys[m].ents[id].value)
  }

  predicate EarnedInRun(ys: seq<Sys>, moves: seq<Move>, c: nat, j: nat, n: nat, id: Id) {
    exists m: nat :: j < m < n && TickReaches(ys, moves, c, j, m, id) && NoRestart(moves, m + 1, n, id)
  }

  // ---- The run and the life agree on these.

  /** What a move is to the entity. */
  lemma KindOfMove(y: Sys, m: Move, id: Id)
    requires SysInv(y) && Possible(y, m) && id in y.ents
    ensures var v, s := EventAt(y, m, id), m.step;
      && (v.Start? <==> s.Enqueue? && s.id == id && s.flags.Initial?)
      && (v.PutPrev? <==> PutsPrev(s, id))
      && (v.PutPrev? ==> v.runnable == s.running)
      && (v.Tick? ==> s.Tick? && v.nsec == s.nsec)
  {
    assert TrackInv(View(y, m.cpu));
    PickIsQueued(View(y, m.cpu).r);
  }

  /** While the entity is on CPU `c`, the ticks of that CPU are its ticks. */
  lemma TicksOfItsCpu(y: Sys, m: Move, c: nat, id: Id)
    requires SysInv(y) && Possible(y, m) && c < |y.cpus| && y.cpus[c].onCpu == Some(id)
    ensures EventAt(y, m, id).Tick? <==> m.cpu == c && m.step.Tick?
  {
    assert TrackInv(View(y, m.cpu));
    if m.cpu != c { HeldOnce(y, c, m.cpu, id); }
  }

  /** It leaves its CPU only by being put. */
  lemma StaysOnCpu(y: Sys, m: Move, c: nat, id: Id)
    requires SysInv(y) && Possible(y, m) && c < |y.cpus| && y.cpus[c].onCpu == Some(id) && !PutsPrev(m.step, id)
    ensures c < |Moved(y, m).cpus| && Moved(y, m).cpus[c].onCpu == Some(id)
  {
  }

  lemma {:induction false} DispatchedStays(ys: seq<Sys>, moves: seq<Move>, j: nat, n: nat, id: Id)
    requires IsSysRun(ys, moves) && DispatchedAt(ys, moves, j, n, id)
    ensures var c := moves[j].cpu; c < |ys[n].cpus| && ys[n].cpus[c].onCpu == Some(id)
  {
    SysRunKeeps(ys, moves, n - 1);
    assert MovesAt(ys, moves, n - 1);
    if n > j + 1 {
      DispatchedStays(ys, moves, j, n - 1, id);
      assert !Puts(moves, n - 1, id);
      StaysOnCpu(ys[n - 1], moves[n - 1], moves[j].cpu, id);
    }
  }

  /** What event `m` of the life is, in terms of move `i + 1 + m` of the run. */
  lemma EventMatches(lives: seq<E.Life>, events: seq<E.Event>, ys: seq<Sys>, moves: seq<Move>, i: nat, m: nat, id: Id)
    requires IsSysRun(ys, moves) && Matches(lives, events, ys, moves, i, id) && m < |events|
    ensures var n := i + 1 + m;
      && SysInv(ys[n]) && Possible(ys[n], moves[n]) && Mirrored(lives[m], ys[n], id)
      && events[m] == EventAt(ys[n], moves[n], id)
      && (events[m].Start? <==> Restarts(moves, n, id))
      && (events[m].PutPrev? <==> Puts(moves, n, id))
      && (events[m].PutPrev? ==> events[m].runnable == moves[n].step.running)
      && (events[m].Tick? ==> moves[n].step.Tick? && events[m].nsec == moves[n].step.nsec)
  {
    var n := i + 1 + m;
    SysRunKeeps(ys, moves, n);
    assert MovesAt(ys, moves, n);
    assert EventIs(events, ys, moves, i, m, id) && StateIs(lives, ys, i, m, id);
    KindOfMove(ys[n], moves[n], id);
  }

  lemma RestartsMatch(lives: seq<E.Life>, events: seq<E.Event>, ys: seq<Sys>, moves: seq<Move>, i: nat, a: nat, b: nat, id: Id)
    requires IsSysRun(ys, moves) && Matches(lives, events, ys, moves, i, id) && b <= |events|
    ensures S.NoStart(events, a, b) <==> NoRestart(moves, i + 1 + a, i + 1 + b, id)
    ensures S.NoPut(events, a, b) <==> NeverPut(moves, i + 1 + a, i + 1 + b, id)
  {
    forall m: nat | m < b
      ensures events[m].Start? <==> Restarts(moves, i + 1 + m, id)
      ensures events[m].PutPrev? <==> Puts(moves, i + 1 + m, id)
    {
      EventMatches(lives, events, ys, moves, i, m, id);
    }
    forall x: nat | i + 1 + a <= x < i + 1 + b
      ensures Restarts(moves, x, id) <==> events[x - i - 1].Start?
      ensures Puts(moves, x, id) <==> events[x - i - 1].PutPrev?
    {
      EventMatches(lives, events, ys, moves, i, x - i - 1, id);
    }
  }

  /** Event `m` of a dispatch on CPU `c` is a tick iff move `i + 1 + m` is a tick of that CPU. */
  lemma TickMatches(lives: seq<E.Life>, events: seq<E.Event>, ys: seq<Sys>, moves: seq<Move>, i: nat, j: nat, m: nat, id: Id)
    requires IsSysRun(ys, moves) && Matches(lives, events, ys, moves, i, id) && j < m < |events|
    requires DispatchedAt(ys, moves, i + 1 + j, i + 1 + m, id)
    ensures events[m].Tick? <==> TicksOn(moves, i + 1 + m, moves[i + 1 + j].cpu)
    ensures events[m].Tick? ==> events[m].nsec == moves[i + 1 + m].step.nsec
  {
    EventMatches(lives, events, ys, moves, i, m, id);
    DispatchedStays(ys, moves, i + 1 + j, i + 1 + m, id);
    TicksOfItsCpu(ys[i + 1 + m], moves[i + 1 + m], moves[i + 1 + j].cpu, id);
  }

  lemma {:induction false} TicksMatch(lives: seq<E.Life>, events: seq<E.Event>, ys: seq<Sys>, moves: seq<Move>, i: nat, j: nat, n: nat, id: Id)
    requires IsSysRun(ys, moves) && Matches(lives, events, ys, moves, i, id) && n <= |events|
    requires DispatchedAt(ys, moves, i + 1 + j, i + 1 + n, id)
    ensures S.TickSum(events, j + 1, n) == RunTicks(moves, moves[i + 1 + j].cpu, i + 1 + j + 1, i + 1 + n)
    decreases n
  {
    if n > j + 1 {
      TicksMatch(lives, events, ys, moves, i, j, n - 1, id);
      TickMatches(lives, events, ys, moves, i, j, n - 1, id);
    }
  }

  lemma ReachesMatch(lives: seq<E.Life>, events: seq<E.Event>, ys: seq<Sys>, moves: seq<Move>, i: nat, j: nat, m: nat, id: Id)
    requires IsSysRun(ys, moves) && Matches(lives, events, ys, moves, i, id) && j < m < |events|
    requires DispatchedAt(ys, moves, i + 1 + j, i + 1 + m + 1, id)
    ensures S.ReachesSlice(lives, events, j, m) <==> TickReaches(ys, moves, moves[i + 1 + j].cpu, i + 1 + j, i + 1 + m, id)
  {
    TickMatches(lives, events, ys, moves, i, j, m, id);
    TicksMatch(lives, events, ys, moves, i, j, m + 1, id);
    assert StateIs(lives, ys, i, m, id);
  }

  lemma EarnedMatches(lives: seq<E.Life>, events: seq<E.Event>, ys: seq<Sys>, moves: seq<Move>, i: nat, j: nat, n: nat, id: Id)
    requires IsSysRun(ys, moves) && Matches(lives, events, ys, moves, i, id) && n <= |events|
    requires DispatchedAt(ys, moves, i + 1 + j, i + 1 + n, id)
    ensures S.Earned(lives, events, j, n) <==> EarnedInRun(ys, moves, moves[i + 1 + j].cpu, i + 1 + j, i + 1 + n, id)
  {
    var c := moves[i + 1 + j].cpu;
    forall m: nat | j < m < n
      ensures S.ReachesSlice(lives, events, j, m) <==> TickReaches(ys, moves, c, i + 1 + j, i + 1 + m, id)
      ensures S.NoStart(events, m + 1, n) <==> NoRestart(moves, i + 1 + m + 1, i + 1 + n, id)
    {
      ReachesMatch(lives, events, ys, moves, i, j, m, id);
      RestartsMatch(lives, events, ys, moves, i, m + 1, n, id);
    }
    if S.Earned(lives, events, j, n) {
      var m: nat :| j < m < n && S.ReachesSlice(lives, events, j, m) && S.NoStart(events, m + 1, n);
      assert TickReaches(ys, moves, c, i + 1 + j, i + 1 + m, id);
    }
    if EarnedInRun(ys, moves, c, i + 1 + j, i + 1 + n, id) {
      var x: nat :| i + 1 + j < x < i + 1 + n && TickReaches(ys, moves, c, i + 1 + j, x, id) && NoRestart(moves, x + 1, i + 1 + n, id);
      assert S.ReachesSlice(lives, events, j, x - i - 1);
    }
  }

  // ---- The results.

  /** The pick is not on any CPU: dispatching it is SetNext. */
  lemma DispatchIsSetNext(y: Sys, m: Move, id: Id)
    requires SysInv(y) && Possible(y, m) && Dispatches(y, m, id)
    ensures EventAt(y, m, id).SetNext?
  {
    var k := View(y, m.cpu);
    assert TrackInv(k);
    PickIsQueued(k.r);
  }

  lemma DispatchMatches(lives: seq<E.Life>, events: seq<E.Event>, ys: seq<Sys>, moves: seq<Move>, i: nat, j: nat, n: nat, id: Id)
    requires IsSysRun(ys, moves) && Matches(lives, events, ys, moves, i, id) && n <= |events|
    requires DispatchedAt(ys, moves, i + 1 + j, i + 1 + n, id)
    ensures S.Dispatch(events, j, n)
  {
    EventMatches(lives, events, ys, moves, i, j, id);
    DispatchIsSetNext(ys[i + 1 + j], moves[i + 1 + j], id);
    RestartsMatch(lives, events, ys, moves, i, j + 1, n, id);
  }

  /**
   In every run, at every state of every dispatch: the entity is flagged iff it was flagged when it
   was dispatched, or some tick of its CPU since reached the slice of the value it had; unless it
   started over since.
   */
  lemma RunFlaggedIff(ys: seq<Sys>, moves: seq<Move>, i: nat, j: nat, n: nat, id: Id)
    requires IsSysRun(ys, moves) && Starts(ys, moves, i, id) && i < j && DispatchedAt(ys, moves, j, n, id)
    ensures Flag(ys[n], id) <==>
      (Flag(ys[j], id) && NoRestart(moves, j + 1, n, id)) || EarnedInRun(ys, moves, moves[j].cpu, j, n, id)
  {
    var lives, events := LifeInRun(ys, moves, i, n, id);
    var j', n' := j - i - 1, n - i - 1;
    assert StateIs(lives, ys, i, j', id) && StateIs(lives, ys, i, n', id);
    DispatchMatches(lives, events, ys, moves, i, j', n', id);
    RestartsMatch(lives, events, ys, moves, i, j' + 1, n', id);
    S.FlaggedIff(lives, events, j', n');
    EarnedMatches(lives, events, ys, moves, i, j', n', id);
  }

  /** Move `m` put the entity blocked and flagged, and nothing put it again or started it over up to state `n`. */
  predicate BlockedAt(ys: seq<Sys>, moves: seq<Move>, m: nat, n: nat, id: Id) {
    && m < |moves| < |ys| && Puts(moves, m, id) && !moves[m].step.running && Flag(ys[m], id)
    && NeverPut(moves, m + 1, n, id) && NoRestart(moves, m + 1, n, id)
  }

  lemma BlockedMatches(lives: seq<E.Life>, events: seq<E.Event>, ys: seq<Sys>, moves: seq<Move>, i: nat, m: nat, n: nat, id: Id)
    requires IsSysRun(ys, moves) && Matches(lives, events, ys, moves, i, id) && m < n <= |events|
    ensures S.BlockedFlagged(lives, events, m, n) <==> BlockedAt(ys, moves, i + 1 + m, i + 1 + n, id)
  {
    EventMatches(lives, events, ys, moves, i, m, id);
    RestartsMatch(lives, events, ys, moves, i, m + 1, n, id);
  }

  /** In every run: on no CPU, the entity is flagged iff it blocked while flagged and has not started over. */
  lemma RunCarriesIff(ys: seq<Sys>, moves: seq<Move>, i: nat, n: nat, id: Id)
    requires IsSysRun(ys, moves) && Starts(ys, moves, i, id) && i < n < |ys| && !OnSomeCpu(ys[n], id)
    ensures Flag(ys[n], id) <==> exists m: nat :: i < m < n && BlockedAt(ys, moves, m, n, id)
  {
    var lives, events := LifeInRun(ys, moves, i, n, id);
    var n' := n - i - 1;
    assert StateIs(lives, ys, i, n', id);
    S.CarriesIff(lives, events, n');
    forall m: nat | m < n' ensures S.BlockedFlagged(lives, events, m, n') <==> BlockedAt(ys, moves, i + 1 + m, n, id) {
      BlockedMatches(lives, events, ys, moves, i, m, n', id);
    }
    if x: nat :| i < x < n && BlockedAt(ys, moves, x, n, id) {
      assert S.BlockedFlagged(lives, events, x - i - 1, n');
    }
  }

  // ---- The first answer.

  /** Being dispatched is being picked by a scheduling step. */
  lemma SetNextIsDispatch(y: Sys, m: Move, id: Id)
    requires SysInv(y) && Possible(y, m)
    ensures EventAt(y, m, id).SetNext? <==> Dispatches(y, m, id)
  {
    if Dispatches(y, m, id) { DispatchIsSetNext(y, m, id); }
  }

  /** No dispatch since the last start means that none happened after it. */
  lemma {:induction false} NoneSince(events: seq<E.Event>, m: nat, x: nat)
    requires x < m <= |events| && E.DispatchesSince(events, m) == 0 && forall j :: x <= j < m ==> !events[j].Start?
    ensures !events[x].SetNext?
  {
    if x < m - 1 { NoneSince(events, m - 1, x); }
  }

  /**
   In every run: an entity that has been dispatched since it last started has as its first answer
   the time of the first of those dispatches, on whichever CPU it was.
   */
  lemma RunFirstAnswer(ys: seq<Sys>, moves: seq<Move>, i: nat, n: nat, id: Id) returns (m: nat)
    requires IsSysRun(ys, moves) && Starts(ys, moves, i, id) && i < n < |ys| && id in ys[n].ents && ys[n].ents[id].answers > 0
    ensures i < m < n && Dispatches(ys[m], moves[m], id) && ys[n].ents[id].firstAnswer == moves[m].step.now
    ensures NoRestart(moves, m, n, id)
    ensures forall x: nat :: i < x < m && NoRestart(moves, x, m, id) ==> !Dispatches(ys[x], moves[x], id)
  {
    var lives, events := LifeInRun(ys, moves, i, n, id);
    assert StateIs(lives, ys, i, n - i - 1, id);
    var m' := E.FirstAnswerIsFirstDispatch(lives, events, n - i - 1);
    m := i + 1 + m';
    EventMatches(lives, events, ys, moves, i, m', id);
    SetNextIsDispatch(ys[m], moves[m], id);
    RestartsMatch(lives, events, ys, moves, i, m', n - i - 1, id);
    forall x: nat | i < x < m && NoRestart(moves, x, m, id) ensures !Dispatches(ys[x], moves[x], id) {
      NotDispatchedBefore(lives, events, ys, moves, i, x - i - 1, m', id);
    }
  }

  lemma NotDispatchedBefore(lives: seq<E.Life>, events: seq<E.Event>, ys: seq<Sys>, moves: seq<Move>, i: nat, x: nat, m: nat, id: Id)
    requires IsSysRun(ys, moves) && Matches(lives, events, ys, moves, i, id) && x < m < |events|
    requires E.DispatchesSince(events, m) == 0 && NoRestart(moves, i + 1 + x, i + 1 + m, id)
    ensures !Dispatches(ys[i + 1 + x], moves[i + 1 + x], id)
  {
    RestartsMatch(lives, events, ys, moves, i, x, m, id);
    NoneSince(events, m, x);
    EventMatches(lives, events, ys, moves, i, x, id);
    SetNextIsDispatch(ys[i + 1 + x], moves[i + 1 + x], id);
  }
}
