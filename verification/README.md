# Scheduler core: concurrency ids, Highest-Value-First, clamps and tree walks

This project models the hardest parts of a customized Linux scheduler and proves what they keep over
whole runs. `dafny verify dfyconfig.toml` checks all of it. `Basics` and `GroupTree` hold what several parts share.

**Per-mm concurrency ids** (`Cid*.dfy`). `CidModel` is a state machine of one mm: per-CPU slots that are
unset, valid or lazy, the shared id bitmap, `rq->curr`, the tasks, a program counter for the section under
each runqueue lock, and one for each remote clear and migration steal. Every load, store, bit operation and
cmpxchg is one step, so a run is an arbitrary interleaving. `CidOwnership` proves conservation of ids with no
premise. `CidSafety` proves the documented guarantee (a slot is never unset while a running task uses its id,
so two running tasks never share one). `CidTasks` proves that only tasks on a CPU have one. `CidLazy` proves
that no lazy id is orphaned. `CidSteal` follows an id that a steal or a clear has taken, whatever else happens, and
`CidAlone` says what every operation does when nobody disturbs it. `CidAllocator` has the allocation loops, alone and
under interference, and the pigeonhole argument.

Code and comments disagree in two places, and the model follows the code.
The guarantee stated at `core.c:10175-10179` fails when an agent that decided "unused" sleeps before its second
cmpxchg, the id is allocated again on the same CPU, and a second agent sets the lazy flag again.
The argument at `core.c:10456-10460` that an observed active task will do the put fails when that task has left
the CPU and re-activates elsewhere after a failed exec. `CidCounterexamples` gives both runs access by access.
For each there is a guard on single steps that is exact for the invariant: a step keeps the invariant if and only if
the guard holds. For the first one `CidNecessity` shows that the guarantee itself needs the guard: for every agent
that is dangerous to an id in use, an unguarded first cmpxchg can cost the running task its id without a step of its
CPU, if the agent has decided or there is a CPU it does not hold itself; otherwise the agent gives up.

**Highest-Value-First** (`Hvf*.dfy`). `HvfValue` is the intended value arithmetic and the admission test, `HvfEntity`
the life of one entity, `HvfSlice` the flag for a used-up slice, `HvfEffects` what each operation does to an entity in
plain numbers. `HvfWords` is the same arithmetic as written, in 64-bit
words that wrap, `HvfWordLives` and `HvfWordRuns` are lives and runs computed with it, and `HvfFits` gives bounds within
which nothing wraps. `HvfTree` is the value-ordered tree with its descent loop, `HvfRunqueue` one runqueue as a state
machine, `HvfFairness` the exact account of who is ahead of whom, `HvfLives` a runqueue with the task on its CPU.
`HvfSystem` is the machine: any number of CPUs, each with its runqueue, sharing the entities. `HvfRunSlice` has the
results on the flag over its runs, `HvfClass` the class's in-place state with its cached maximum, `HvfPremises` what the
code does not enforce, and `HvfPlacement` the choice of a CPU.
HVF is the last class before idle, so a run has two kinds of switches: to the HVF maximum, or to idle if the tree is
empty, and to a task of any other class while HVF tasks stay queued. What other CPUs do is, for one runqueue, a step that
leaves its members alone; `HvfSystem.RunOnEachCpu` proves that every run of the machine is such a run on each CPU, so the
results of `HvfRunqueue`, `HvfFairness` and `HvfLives` hold on all of them.
Runs have six premises: a value is not rewritten while the entity is in the tree, a runnable previous task is the current
one, a blocked previous task was dequeued before, the previous task is the one on the CPU, no CPU enqueues, dequeues or
puts a task that another one holds or that has not been put yet (`core.c:4313` waits for that, and `core.c:2485-2493`
dequeues a task before moving it), and the clock does not go backwards. `HvfPremises` shows for the first and third
exactly what goes wrong and when.
Three more properties fail in the code and are stated with their exact condition. The flag for a used-up slice survives a
block, so that a task can be decayed in a dispatch in which it did not use its slice (`HvfSlice`). The admission test
wraps, so that a huge computation time is accepted (`HvfValue`). Values leave 0..100, because the products for the initial
value and for the penalty wrap at parameters that are accepted: (1, 10^14, 1000) at second 1700000000 gives -84, and a
computation time of -303700050 ms gives a value above 10^12 (`HvfWords`); lives and runs are as intended, with values in
0..100, exactly as long as every event meets the condition there (`HvfWordLives`, `HvfWordRuns`).

**Utilization clamps** (`Uclamp*.dfy`). `UclampBuckets` is the bucketed cache of a maximum, `UclampHierarchy`
the pruned update of group clamps.

**Tree walks** (`TaskGroupWalk`, `ProcessWalk`, `Cfs*.dfy`). The walks that jump into their own loops are
loops over a cursor here, proved equal to recursive traversals; the CFS quota check is built on one of them.
It writes on the way down, so a refused bandwidth can stay in effect; `CfsRefusal` proves exactly when.

## Model

| member | source | states |
|---|---|---|
| CidModel.StepKeepsShape | customized-kernel/kernel/sched/sched.h:3853-3927 | every access of every interleaving is defined: indices, tasks and the destination of a steal stay well-formed |
| CidModel.StepKeepsRunsOnce | customized-kernel/kernel/sched/sched.h:3878-3927 | a task is on at most one CPU, counting one that has not finished switching away from it |
| CidOwnership.SectionConserves | customized-kernel/kernel/sched/sched.h:3682-3726 | every access under a runqueue lock (put, lazy put, get, install) conserves ids |
| CidOwnership.WonConserves | customized-kernel/kernel/sched/core.c:10408-10419 | an agent that won an id conserves ids: stealing for an unset destination it stores exactly that id there and frees nothing, otherwise it frees exactly that id and touches no slot |
| CidOwnership.AgentConserves | customized-kernel/kernel/sched/core.c:10422-10476 | the other accesses of clears and steals conserve ids |
| CidOwnership.StepConserves | customized-kernel/kernel/sched/sched.h:3674-3681 | every step keeps: a bit is set iff exactly one holder has the id, and away from unset only the lock holder moves a slot |
| CidOwnership.RunConserves | customized-kernel/kernel/sched/sched.h:3667-3876 | the same in every state of every run, with any number of concurrent clears and steals |
| CidOwnership.SlotsNeverShareAnId | customized-kernel/kernel/sched/core.c:10302-10476 | in every state of every run no two slots hold the same id, and every held id is marked as taken |
| CidSteal.StealKeepsBits | customized-kernel/kernel/sched/core.c:10408-10419 | on every path, from the begin of a steal with unset destination until the destination is free again, no access of the steal changes the bitmap |
| CidSteal.StolenIdIsMoved | customized-kernel/kernel/sched/core.c:10408-10419 | if it unset the source slot holding c, the destination slot holds c when the steal is over, whatever others did |
| CidSteal.OnlyStolenIdsArrive | customized-kernel/kernel/sched/core.c:10408-10419 | it stores in the destination only an id it has taken from the source, as its last access |
| CidSteal.StolenIdIsFreed | customized-kernel/kernel/sched/core.c:10408-10411 | with the destination set, the taken id is freed by the next access of the steal, which touches no slot |
| CidSteal.StealLeavesSetSlot | customized-kernel/kernel/sched/core.c:10408-10411 | with the destination set, no access of the steal touches the destination slot |
| CidSteal.ClearedIdIsFreed | customized-kernel/kernel/sched/core.c:10466-10475 | the id that a remote clear takes from a slot is freed by its next access, which touches no slot |
| CidAlone.ClearAlone | customized-kernel/kernel/sched/core.c:10422-10476 | a remote clear that nobody disturbs: an unused valid id is unset and freed, one in use becomes lazy, anything else stays |
| CidAlone.StealAlone | customized-kernel/kernel/sched/core.c:10362-10420 | a migration steal that nobody disturbs: an unused valid id of the source moves to an unset destination or is freed; one in use becomes lazy, anything else stays |
| CidAlone.SwitchAlone | customized-kernel/kernel/sched/sched.h:3878-3927 | a context switch that nobody disturbs: a lazy id is put iff either task uses the mm, the previous task loses its id, the next one gets the id of a valid slot, or else any free one |
| CidAlone.ForkedTaskGetsId | customized-kernel/kernel/sched/core.c:10663-10667 | a forked task has no id and gets one when it is switched in |
| CidAlone.DeactivateAlone | customized-kernel/kernel/sched/core.c:10596-10638 | exit and exec on their own: the task is inactive and without id, slot and bit are cleared |
| CidAlone.ActivateAlone | customized-kernel/kernel/sched/core.c:10640-10661 | after a failed exec the task is active and has the id of a valid slot, or else any free one |
| CidTasks.OnlyRunningTasksHaveIds | customized-kernel/kernel/sched/sched.h:3920-3926 | in every state of every run a task on no CPU has no id, and ids are got for users of the mm only |
| CidSafety.SectionKeepsOwn | customized-kernel/kernel/sched/sched.h:3853-3876 | a locked section keeps the id its running task uses in its slot, with no agent able to unset it |
| CidSafety.ClaimedSlotMarked | customized-kernel/kernel/sched/core.c:10439-10441 | a guarded first cmpxchg on an id in use leaves nobody who could unset it |
| CidSafety.StepKeepsSafety | customized-kernel/kernel/sched/core.c:10175-10256 | every guarded step keeps the safety invariant |
| CidSafety.RunIsSafe | customized-kernel/kernel/sched/core.c:10422-10476 | runs whose first cmpxchgs are guarded keep the invariant in every state |
| CidSafety.RunningTasksNeverShareAnId | customized-kernel/kernel/sched/core.c:10175-10256 | in such runs every running user has an id, its CPU's slot carries it, and no other CPU's running user has the same one |
| CidSafety.OneWindowIsDisciplined | customized-kernel/kernel/sched/core.c:10439-10475 | one agent at a time between its two cmpxchgs per slot implies the guard |
| CidSafety.OneWindowRunIsSafe | customized-kernel/kernel/sched/core.c:10422-10476 | with at most one agent between its two cmpxchgs on any slot, the guarantee holds over the whole run |
| CidSafety.DisciplineIsExact | customized-kernel/kernel/sched/core.c:10439-10441 | a step keeps the safety invariant, which says that nobody is in a position to unset an id in use, iff the guard holds |
| CidSafety.StaleAgentUnsetsUsedId | customized-kernel/kernel/sched/core.c:10302-10360 | an agent that has already decided needs at most two more accesses after an unguarded first cmpxchg to unset the slot under the running user |
| CidNecessity.RunIsSteady | customized-kernel/kernel/sched/core.c:10362-10420 | in every run a stealer does not watch the current task of the CPU it holds, unless it steals from that CPU, and then it is right about it |
| CidNecessity.UndisciplinedRobs | customized-kernel/kernel/sched/core.c:10422-10476 | for every dangerous agent: after an unguarded first cmpxchg the slot can become unset under the running user without a step of its CPU, if the agent has decided or there is a CPU it does not hold |
| CidNecessity.UndecidedGivesUp | customized-kernel/kernel/sched/core.c:10341-10351 | otherwise, on every path without a step of that CPU, the agent gives up |
| CidCounterexamples.OverlappingClearsShareAnId | customized-kernel/kernel/sched/core.c:10422-10476 | a run from a new mm in which two running tasks share id 0 |
| CidLazy.SectionAttends | customized-kernel/kernel/sched/sched.h:3682-3726 | a section that leaves its slot lazy leaves somebody responsible for it |
| CidLazy.AgentAttends | customized-kernel/kernel/sched/core.c:10461-10475 | an agent that stops caring about a lazy slot has seen a user on that CPU |
| CidLazy.ActivateAttends | customized-kernel/kernel/sched/core.c:10640-10661 | re-activation costs a lazy slot of another CPU exactly the agents that hold a pointer to the task |
| CidLazy.CautionIsExact | customized-kernel/kernel/sched/core.c:10341-10358 | a step keeps every lazy slot attended iff it is not a re-activation that takes away the last one attending a slot |
| CidLazy.NoLazyIdIsOrphaned | customized-kernel/kernel/sched/core.c:10456-10475 | in every state of every run with such re-activations excluded, a lazy slot has a user, a due put, or an agent that will unset it |
| CidLazy.ReactivationOrphans | customized-kernel/kernel/sched/core.c:10640-10661 | otherwise the last attending agent's next two loads leave the slot to nobody |
| CidCounterexamples.ReactivationOrphansALazyId | customized-kernel/kernel/sched/core.c:10618-10661 | a run from a new mm that ends with a lazy slot, no user and no agent at work |
| CidAllocator.CidMask.FirstZero | customized-kernel/kernel/sched/sched.h:3776-3776 | finds the least clear bit |
| CidAllocator.CidMask.TryGet | customized-kernel/kernel/sched/sched.h:3728-3785 | undisturbed: takes the recent id, else the first free id the range may grow by, else the first free one, and leaves the range within its limits |
| CidAllocator.AloneAllocates | customized-kernel/kernel/sched/sched.h:3728-3785 | the accesses of an allocation that nobody disturbs end with the id and the memory that the loops give |
| CidAllocator.RunIsBounded | customized-kernel/kernel/sched/sched.h:3740-3780 | under interference the private copies stay within what was allowed |
| CidAllocator.AllocatedIdIsFreshAndAllowed | customized-kernel/kernel/sched/sched.h:3728-3785 | whatever others do, the returned id was a clear bit below nr_cpus_allowed at the access that took it |
| CidAllocator.AsManyIdsAsSlots | customized-kernel/kernel/sched/sched.h:3769-3780 | the ids of any set of occupied slots are as many as those slots |
| CidAllocator.FreeIdBelowAllowed | customized-kernel/kernel/sched/sched.h:3769-3780 | with nothing in flight and at most n CPUs holding ids, a CPU with an unset slot finds its first free id below n |
| HvfValue.InitValueInterpolates | customized-kernel/kernel/sched/hvf.c:453-463 | the intended value, without wrapping: between the deadlines it is the floor of the linear interpolation |
| HvfValue.InitValueClamped | customized-kernel/kernel/sched/hvf.c:453-463 | the intended value is in 0..100, full before the first deadline and none after the second; HvfWords.InitInRangeIff says when the value as written is |
| HvfValue.InitValueMonotone | customized-kernel/kernel/sched/hvf.c:453-463 | the intended value of a later predicted finish is never higher |
| HvfValue.ScoreIsInitValue | customized-kernel/my_sched_syscalls/sched_sys.c:51-64 | the intended score is the intended initial value of a finish at a whole second; HvfWords.ScoreIsWordInitIff says when that holds as written |
| HvfValue.ScoreBracketsInitValue | customized-kernel/my_sched_syscalls/sched_sys.c:51-64 | any other intended initial value lies between the intended scores of the neighbouring seconds |
| HvfValue.AdmittedMeansBeforeDeadline | customized-kernel/my_sched_syscalls/sched_sys.c:15-30 | the intended test: ordered deadlines are refused iff the predicted finish is not before the second one, where the value is 0; a finish a hundredth of the span early has value at least 1 |
| HvfValue.HugeTimeIsAdmitted | customized-kernel/my_sched_syscalls/sched_sys.c:16-22 | the test as written, in 64 bits, accepts a computation time of 2^63 - 1 ms, which the intended one refuses |
| HvfValue.AdmissionIsExactIff | customized-kernel/my_sched_syscalls/sched_sys.c:16-22 | for all inputs: the test as written is the intended one iff both sides wrapped equally often, or the wrapped sides compare like the number of wraps |
| HvfValue.AdmissionInRangeIff | customized-kernel/my_sched_syscalls/sched_sys.c:16-22 | for clock and deadline in range: iff the predicted finish is below 2^63 ms |
| HvfValue.AdmissionBeyondIff | customized-kernel/my_sched_syscalls/sched_sys.c:16-22 | for deadlines of 2^63 ms or more: iff the predicted finish, less one wrap if it made one, is below the wrapped deadline, or both made exactly one |
| HvfValue.AdmissionDecides | customized-kernel/my_sched_syscalls/sched_sys.c:16-22 | deadlines that are not positive and ordered are refused; others, with nothing wrapping, are accepted iff the predicted finish is before the second one |
| HvfValue.DecayInRange | customized-kernel/kernel/sched/hvf.c:466-476 | a decay takes away its percentage of the value, rounded up, and turns 0 into 10; it stays in 0..100 and never lifts a value from at most 10 above 10 |
| HvfValue.ReducedToNothing | customized-kernel/kernel/sched/hvf.c:466-476 | after 100 ms of use a decay leaves at most 10 |
| HvfValue.ReducedExact | customized-kernel/kernel/sched/hvf.c:466-476 | what is left of a value v after a decay is 0 from 100 ms of use on, and otherwise v less as many percent as milliseconds were used, rounded up; 10 if v was 0 |
| HvfValue.PenalizedExact | customized-kernel/kernel/sched/hvf.c:595-603 | the same for the penalty, with the squared overrun in place of the time used |
| HvfValue.PenalizedInRange | customized-kernel/kernel/sched/hvf.c:595-603 | the intended penalty takes away the square of the overrun in percent, rounded up; it stays in 0..100 and obeys the same bound; HvfWords.PenaltyExactIff says when the penalty as written does |
| HvfValue.SliceInRange | customized-kernel/kernel/sched/hvf.c:553-566 | the slice is 9 ms and one more for each unit of value, at least 10 ms, so 10..109 ms for values 0..100, growing with the value |
| HvfValue.InitValueFits | customized-kernel/kernel/sched/hvf.c:453-463 | no intermediate result, from the predicted finish on, leaves 64 bits for deadlines below 2^63 / 100000 s and a predicted finish below 2^63 ms |
| HvfValue.PenaltyFits | customized-kernel/kernel/sched/hvf.c:595-603 | the penalty product fits 64 bits at every value iff the overrun is at most 303700049 ms |
| HvfValue.DecayAndTickFit | customized-kernel/kernel/sched/hvf.c:193-204 | decay and slice comparison fit 64 bits up to a bound on the time used, which lives meet |
| HvfValue.MillisMonotone | customized-kernel/kernel/sched/hvf.c:500-505 | the millisecond clock does not go backwards when the time of day does not |
| HvfValue.MillisExact | customized-kernel/kernel/sched/hvf.c:500-505 | the millisecond clock counts the full milliseconds of the time of day |
| HvfWords.InitExactIff | customized-kernel/kernel/sched/hvf.c:453-463 | for all deadlines below 2^63 ms and all computation times: the initial value as written, in wrapping 64-bit words, is the intended one iff the predicted finish is below 2^63 ms and, between the deadlines, the product is below 2^63 |
| HvfWords.InitInRangeIff | customized-kernel/kernel/sched/hvf.c:453-463 | it is in 0..100 iff, between the deadlines, the wrapped product lies between minus one and 101 times the span |
| HvfWords.WordScoreIff | customized-kernel/my_sched_syscalls/sched_sys.c:51-64 | the score as written is the intended one iff its own product is below 2^63 |
| HvfWords.ScoreIsWordInitIff | customized-kernel/my_sched_syscalls/sched_sys.c:51-64 | at whole seconds score and initial value as written agree iff the product of the value is below 2^63 |
| HvfWords.FarDeadlineWraps | customized-kernel/kernel/sched/hvf.c:453-463 | accepted parameters (1, 10^14, 1000) at second 1700000000: the value as written is -84, the intended value and the score as written are 99 |
| HvfWords.PenaltyExactIff | customized-kernel/kernel/sched/hvf.c:595-603 | for every value in 0..100, every time used and every computation time: the penalty as written is the intended one iff the value is 0, the product is below 2^63, or its wrapped rest is at least 100 times the value; it is in 0..100 iff that rest is not below a bound |
| HvfWords.NegativeTimeWraps | customized-kernel/kernel/sched/hvf.c:595-603 | accepted parameters with computation time -303700050, at every second: the first penalty stores a value above 10^12 instead of 0 |
| HvfWordLives.ChangedIff | customized-kernel/kernel/sched/hvf.c:453-603 | one event, as written, makes of an entity of a life what is intended iff it meets a condition on that entity: initial value and penalty exact, counters below their limits; accounting and decay never wrap, because the time used is conserved |
| HvfWordLives.BirthIff | customized-kernel/kernel/sched/hvf.c:90-94 | the same for the first enqueue, with given or default parameters |
| HvfWordLives.FarDeadlineLeavesRange | customized-kernel/kernel/sched/hvf.c:90-94 | the first enqueue with the far deadline stores -84 instead of 99 |
| HvfWordLives.NegativeTimeLeavesRange | customized-kernel/kernel/sched/hvf.c:61-68 | the first enqueue with the negative computation time stores a value above 10^12 instead of 0 |
| HvfWordLives.WordLifeIff | customized-kernel/kernel/sched/hvf.c:453-603 | a life as written is a life as intended, in every state, iff every event meets its condition |
| HvfWordLives.WordValuesInRange | customized-kernel/kernel/sched/hvf.c:453-476 | over every life as written whose events meet the condition, values stay in 0..100, slices in 10..109 ms and the time used fits since the start |
| HvfFits.EventFit | customized-kernel/kernel/sched/hvf.c:453-603 | one event with clock, parameters and overrun in bounds and counters that fit: every intermediate result fits its C type |
| HvfFits.RuntimeFits | customized-kernel/kernel/sched/hvf.c:193-204 | the runtime is the ticks of the dispatch under way, so with bounded number and size of ticks the sum fits 64 bits |
| HvfFits.AnswersFit | customized-kernel/kernel/sched/hvf.c:521-529 | the number of answers is at most the number of dispatches, so it fits 32 bits |
| HvfFits.LifeFits | customized-kernel/kernel/sched/hvf.c:453-603 | over every life with clock, parameters and overrun in bounds, ticks of at most 10 ms, at most 9 * 10^11 of them and fewer than 2^31 dispatches, every intermediate result of every event fits; the time used needs no bound, because it is conserved |
| HvfFits.BirthFits | customized-kernel/kernel/sched/hvf.c:90-94 | so does the first enqueue, which begins the life in bounds |
| HvfFits.ModestIsExact | customized-kernel/kernel/sched/hvf.c:453-603 | within these bounds every event meets the condition for being as intended when written |
| HvfEntity.DefaultsGiveFullValue | customized-kernel/kernel/sched/hvf.c:568-582 | a task without parameters starts with the full value |
| HvfEntity.LifeIsSound | customized-kernel/kernel/sched/hvf.c:84-276 | the invariant holds after every sequence of events |
| HvfEntity.TimeIsConserved | customized-kernel/kernel/sched/hvf.c:207-229 | time used is the sum of disjoint dispatch intervals since the start, so wait and response times are never negative |
| HvfEntity.ValuesStayInRange | customized-kernel/kernel/sched/hvf.c:453-476 | over every life of intended values, values stay in 0..100 and slices in 10..109 ms; HvfWordLives.WordLifeIff says which lives as written these are |
| HvfEntity.SpentTaskStaysLow | customized-kernel/kernel/sched/hvf.c:254-276 | once a task expired a slice after 100 ms of use, its value stays at most 10 until it is recomputed |
| HvfEntity.AnswersAreDispatches | customized-kernel/kernel/sched/hvf.c:521-529 | in every life the number of answers is the number of dispatches since the entity started |
| HvfEntity.FirstAnswerIsFirstDispatch | customized-kernel/kernel/sched/hvf.c:207-229 | in every life the first answer, from which the response time is reported, is the time of the first dispatch since the entity started |
| HvfSlice.RuntimeIsTicks | customized-kernel/kernel/sched/hvf.c:193-204 | during a dispatch the runtime is the sum of its ticks |
| HvfSlice.FlaggedIff | customized-kernel/kernel/sched/hvf.c:193-204 | in every life, at every state of every dispatch: flagged iff the flag was carried in, or the ticks of the dispatch reached 9 ms and one more for each unit of the value at that tick, at least 10 ms; unless it started over since |
| HvfSlice.CarriesIff | customized-kernel/kernel/sched/hvf.c:265-275 | in every life: off the CPU the flag is set iff the last put was of a blocked task with the flag set and it has not started over since |
| HvfSlice.StaleFlag | customized-kernel/kernel/sched/hvf.c:269-274 | for every task there is a life with ticks of 10 ms that blocks after its slice and is flagged in its next dispatch without a tick |
| HvfSlice.StaleFlagDecays | customized-kernel/kernel/sched/hvf.c:269-274 | preempted a millisecond later, that task is down to at most 10 without having used its slice |
| HvfTree.PlugInOrder | customized-kernel/kernel/sched/hvf.c:483-495 | linking a node at the end of a descent puts it at that place of the in-order sequence |
| HvfTree.Insert | customized-kernel/kernel/sched/hvf.c:479-498 | the descent loop inserts ahead of all equal values and behind all smaller ones, for any rebalancing that keeps the order |
| HvfTree.EraseInOrder | customized-kernel/kernel/sched/hvf.c:115-115 | removal drops exactly one node from the in-order sequence |
| HvfRunqueue.QueuedOrder | customized-kernel/kernel/sched/hvf.c:61-82 | a queued entity is behind older equals and ahead of smaller values |
| HvfRunqueue.EnqueueKeeps | customized-kernel/kernel/sched/hvf.c:84-103 | a wakeup keeps the invariant and queues the entity unless it is current |
| HvfRunqueue.DequeueKeeps | customized-kernel/kernel/sched/hvf.c:124-148 | a dequeue keeps the invariant, removes exactly that entity, and clears a blocked current |
| HvfRunqueue.PutPrevKeeps | customized-kernel/kernel/sched/hvf.c:254-276 | putting the previous task back keeps the invariant and queues it iff it is runnable |
| HvfRunqueue.SetNextKeeps | customized-kernel/kernel/sched/hvf.c:150-170 | dispatch keeps the invariant and moves the entity from the tree to current |
| HvfRunqueue.AfterPutKeeps | customized-kernel/kernel/sched/core.c:6048-6058 | a switch to a task of another class keeps the invariant, and exactly a runnable previous task joins the tree |
| HvfRunqueue.ScheduleKeeps | customized-kernel/kernel/sched/sched.h:2530-2543 | pick before put: the new current is the old maximum, and exactly the previous task joins the tree |
| HvfRunqueue.IdlesWhileRunnableIff | customized-kernel/kernel/sched/hvf.c:55-56 | a scheduling step leaves the CPU idle while an HVF task is queued iff the tree was empty and the previous task is still running |
| HvfRunqueue.ElsewhereKeeps | customized-kernel/kernel/sched/hvf.c:361-384 | whatever other CPUs do to entities this runqueue does not hold keeps the invariant |
| HvfRunqueue.StepKeeps | customized-kernel/kernel/sched/hvf.c:84-276 | every step, also of other CPUs, keeps: the tree in value and age order, on_rq iff in the tree unless another CPU holds the entity, current not in the tree, the share of nr_running exact |
| HvfRunqueue.RunKeeps | customized-kernel/kernel/sched/hvf.c:445-451 | the same in every state of every run, with entities leaving for other CPUs and coming back |
| HvfRunqueue.ShareCountsMembers | customized-kernel/kernel/sched/hvf.c:84-148 | the share of nr_running is the number of members, and nobody is both queued and current |
| HvfRunqueue.TasksAreConserved | customized-kernel/kernel/sched/hvf.c:84-276 | a wakeup adds one member, a dequeue removes one, every other step loses and gains none |
| HvfRunqueue.PickIsHighestAndOldest | customized-kernel/kernel/sched/hvf.c:43-59 | in every run the pick has the highest value and among equals was queued first; idle iff the tree is empty |
| HvfEffects.EnqueueMeans | customized-kernel/kernel/sched/hvf.c:84-103 | a wakeup, field by field: by its flags it starts the times over, gives missing parameters their defaults and stores the worth of the predicted finish; it takes the penalty away iff it queues an entity that overran; no other entity changes |
| HvfEffects.PutPrevMeans | customized-kernel/kernel/sched/hvf.c:254-276 | putting the previous task adds the time since its dispatch; a running one loses the percentage of its use iff flagged, then the penalty iff it overran, and is unflagged and queued; nothing else changes |
| HvfEffects.SetNextMeans | customized-kernel/kernel/sched/hvf.c:150-170 | a dispatch sets the latest time and a zero runtime, counts the answer, and records the time iff it is the first |
| HvfEffects.TickMeans | customized-kernel/kernel/sched/hvf.c:193-204 | a tick adds to the runtime and flags the task iff it reaches 9 ms and one more for each unit of value, at least 10 ms |
| HvfEffects.NewParamsMeans | customized-kernel/my_sched_syscalls/sched_sys.c:22-28 | accepted parameters replace those of the current task and nothing else |
| HvfEffects.ScheduleMeans | customized-kernel/kernel/sched/sched.h:2530-2543 | a scheduling step has these effects on the previous task and on the pick, and none on anybody else |
| HvfFairness.QueuedAhead | customized-kernel/kernel/sched/hvf.c:483-492 | queueing an entity puts it ahead of a waiting one iff its value is higher |
| HvfFairness.WaitStep | customized-kernel/kernel/sched/hvf.c:84-276 | one step changes the number ahead of a queued entity by the higher arrival, the pick and the removal it makes; it leaves the tree iff it is dequeued, or picked with nobody ahead |
| HvfFairness.AccountIsExact | customized-kernel/kernel/sched/hvf.c:43-59 | while an entity is queued, over every stretch of every run: those ahead are those before, plus higher arrivals, minus scheduling steps, minus removals from ahead |
| HvfFairness.DispatchedIff | customized-kernel/kernel/sched/hvf.c:43-59 | a scheduling step dispatches a queued entity iff that account has come to zero |
| HvfFairness.StillWaiting | customized-kernel/kernel/sched/hvf.c:76-81 | with no higher arrivals, an entity that had k ahead is still queued after m scheduling steps and d removals with k - m - d ahead |
| HvfFairness.DispatchedInTurn | customized-kernel/kernel/sched/hvf.c:43-59 | with no higher arrivals, an entity with k ahead is dispatched by exactly the scheduling step that follows k earlier ones and removals from ahead, whatever else blocks, wakes or is preempted |
| HvfLives.TrackKeeps | customized-kernel/kernel/sched/hvf.c:124-170 | the current HVF task is the one on the CPU, and a task on the CPU is not in the tree and not held by another CPU, also between blocking and being put |
| HvfLives.StepFrames | customized-kernel/kernel/sched/hvf.c:84-276 | a step of one CPU leaves every entity that another CPU holds as it is |
| HvfLives.StepMirrors | customized-kernel/kernel/sched/hvf.c:84-276 | every step of a runqueue is, for every entity it may touch, one enabled event of its life |
| HvfLives.ChargesNeverOverlap | customized-kernel/kernel/sched/hvf.c:544-551 | over every run, with other CPUs at work, the time charged on one CPU to all HVF tasks together is at most the time that has passed |
| HvfSystem.MoveIsAStep | customized-kernel/kernel/sched/hvf.c:84-276 | a step of any CPU is, seen from every CPU, an enabled step of its own runqueue |
| HvfSystem.MoveKeeps | customized-kernel/kernel/sched/hvf.c:84-276 | it keeps the invariants of all CPUs |
| HvfSystem.SysRunKeeps | customized-kernel/kernel/sched/hvf.c:445-451 | in every state of every run of the machine all of them hold |
| HvfSystem.InOneTree | customized-kernel/kernel/sched/hvf.c:61-148 | in every run on_rq is set iff the entity is in a tree, and nobody is held (queued, current or on the CPU) by two CPUs, so that tree is one |
| HvfSystem.RunOnEachCpu | customized-kernel/kernel/sched/hvf.c:361-384 | every run of the machine is, on each CPU, a run of its runqueue, with the moves of the others as steps of other CPUs |
| HvfSystem.EveryCpuIsSound | customized-kernel/kernel/sched/hvf.c:43-148 | on every CPU of every run the share of nr_running counts its members, the pick has the highest value and is the oldest, and the time charged on the CPU has passed |
| HvfSystem.MoveMirrors | customized-kernel/kernel/sched/hvf.c:84-276 | a step of any CPU is one event of the life of every entity, wherever it is |
| HvfSystem.LifeInRun | customized-kernel/kernel/sched/hvf.c:84-276 | from its first enqueue on any CPU, what all CPUs do to an entity is a life, state by state and event by event |
| HvfSystem.RunConservesTime | customized-kernel/kernel/sched/hvf.c:207-229 | in every run the time an entity used on all CPUs fits between its start and now, and its first answer too; value and slice, as intended, are in range |
| HvfSystem.RunKeepsSpentLow | customized-kernel/kernel/sched/hvf.c:254-276 | in every run a task preempted with an expired slice after 100 ms stays at most at value 10 on every CPU until an enqueue recomputes it |
| HvfWordRuns.MoveInWords | customized-kernel/kernel/sched/hvf.c:453-603 | a move, as written, makes of an entity what the run has next iff it meets the condition |
| HvfWordRuns.RunInWordsIff | customized-kernel/kernel/sched/hvf.c:453-603 | computed in words along a run from its first enqueue on, an entity is what the run has in every state iff every move meets its condition |
| HvfWordRuns.RunValuesInRange | customized-kernel/kernel/sched/hvf.c:453-476 | under the condition, in every state of every run, the value as written is in 0..100, the slice in 10..109 ms and the time used fits since the start |
| HvfRunSlice.RunFlaggedIff | customized-kernel/kernel/sched/hvf.c:193-204 | the result on the flag during a dispatch, for every entity of every run, in terms of the ticks of the CPU it was dispatched on and the number of milliseconds |
| HvfRunSlice.RunCarriesIff | customized-kernel/kernel/sched/hvf.c:265-275 | the result on the carried flag, for every entity of every run, also when it blocked on another CPU |
| HvfRunSlice.RunFirstAnswer | customized-kernel/kernel/sched/hvf.c:521-529 | in every run the first answer of an entity is the time of its first dispatch since it last started, on whichever CPU |
| HvfClass.MaxAfterQueued | customized-kernel/kernel/sched/hvf.c:71-81 | after an insertion the last node is the one after the old maximum iff the new value is larger |
| HvfClass.Link | customized-kernel/kernel/sched/hvf.c:61-82 | penalty, insertion and cache update give the specified sequence and its last node |
| HvfClass.Unlink | customized-kernel/kernel/sched/hvf.c:106-121 | removal and cache update give the sequence without the entity and its last node |
| HvfClass.HvfRq.constructor | customized-kernel/kernel/sched/hvf.c:445-451 | a new runqueue is empty and satisfies the invariant |
| HvfClass.HvfRq.EnqueueEntity | customized-kernel/kernel/sched/hvf.c:61-82 | does what the state machine does, with the cached maximum and the counter exact |
| HvfClass.HvfRq.DequeueEntity | customized-kernel/kernel/sched/hvf.c:106-121 | the same for removal |
| HvfClass.HvfRq.EnqueueTask | customized-kernel/kernel/sched/hvf.c:84-103 | refines the wakeup step, has its effect on the fields of the entity and on no other, and keeps the invariant |
| HvfClass.HvfRq.DequeueTask | customized-kernel/kernel/sched/hvf.c:124-148 | refines the dequeue step; returns true iff nr_running went down |
| HvfClass.HvfRq.PickTask | customized-kernel/kernel/sched/hvf.c:43-59 | the cached maximum is the highest and oldest entity; idle iff the tree is empty |
| HvfClass.HvfRq.SetNextTask | customized-kernel/kernel/sched/hvf.c:150-170 | refines the dispatch with its effect on the fields; does nothing unless it is the first set |
| HvfClass.HvfRq.PutPrevTask | customized-kernel/kernel/sched/hvf.c:254-276 | refines putting the previous task back, states in plain numbers what is left of the value after decay and penalty, and keeps the invariant |
| HvfClass.HvfRq.TaskTick | customized-kernel/kernel/sched/hvf.c:193-204 | refines the tick; flags and asks to reschedule iff the runtime reaches 9 ms and one more for each unit of value, at least 10 ms |
| HvfClass.HvfRq.OthersRun | customized-kernel/kernel/sched/hvf.c:361-384 | other CPUs change shared entities; refines that step and keeps the invariant, the cached maximum and the counter |
| HvfClass.HvfRq.SetSchedulingParams | customized-kernel/my_sched_syscalls/sched_sys.c:15-30 | refuses deadlines that are not positive and ordered; otherwise accepts iff the test as written does, which is the finish before the second deadline when nothing wraps; then replaces the parameters of the current task and nothing else |
| HvfClass.HvfRq.SwitchToOther | customized-kernel/kernel/sched/core.c:6048-6058 | refines the switch to a task of another class and keeps the invariant |
| HvfClass.HvfRq.Schedule | customized-kernel/kernel/sched/sched.h:2530-2543 | pick, put and set together refine the scheduling step and keep the invariant |
| HvfPremises.RewriteKeepsOrderIff | customized-kernel/kernel/sched/hvf.c:90-97 | rewriting the value of a queued entity keeps the tree in order iff it still fits between its two neighbours |
| HvfPremises.RewriteMisleadsPick | customized-kernel/kernel/sched/hvf.c:90-97 | a run from an empty runqueue (two first enqueues, a dispatch, eleven ticks of 10 ms, a preemption at 110 ms) after which an enqueue recomputes a queued entity from 0 to 100 and the pick still returns one of value 60 |
| HvfPremises.SwitchConservesIff | customized-kernel/kernel/sched/hvf.c:254-276 | a switch away from the current task keeps nr_running exact iff that task is running or nothing is queued; otherwise it is lost |
| HvfPlacement.GetRightCpu | customized-kernel/kernel/sched/hvf.c:337-358 | the search loop picks the chunk of the value, or the last CPU past all chunks |
| HvfPlacement.SlotMonotone | customized-kernel/kernel/sched/hvf.c:337-358 | a higher value never gets an earlier position |
| HvfPlacement.SlotExact | customized-kernel/kernel/sched/hvf.c:337-358 | exactly which values get which position; with more than 100 CPUs always the last |
| HvfPlacement.HigherValueBusierCpu | customized-kernel/kernel/sched/hvf.c:302-358 | on the same loads a higher value never gets a less loaded CPU, and the CPU is one of those sorted |
| HvfPlacement.ExtremesGoToExtremes | customized-kernel/kernel/sched/hvf.c:341-357 | with up to 100 CPUs value 0 gets a least loaded CPU of the mask and value 100 a most loaded one |
| HvfPlacement.HvfTask.FillLoads | customized-kernel/kernel/sched/hvf.c:321-335 | the array holds each CPU of the mask with its load, in mask order |
| HvfPlacement.HvfTask.SelectTaskRq | customized-kernel/kernel/sched/hvf.c:361-384 | the chosen CPU is in the mask and at the position of the value; the previous CPU without a wakeup or with one allowed CPU; both are recorded |
| UclampBuckets.BucketIdIsBucketing | customized-kernel/kernel/sched/sched.h:3486-3492 | buckets are equally wide, the last one takes all the rest, and bucket ids are in range and monotone |
| UclampBuckets.DeltaIsClosest | customized-kernel/kernel/sched/sched.h:3486-3487 | the width of a bucket is the integer closest to 1024 / n |
| UclampBuckets.SameBucketIff | customized-kernel/kernel/sched/sched.h:3486-3492 | two values share a bucket iff both are at least n - 1 widths, or both lie in one interval of that width |
| UclampBuckets.CacheRefinesMaximum | customized-kernel/kernel/sched/core.c:1646-1673 | the cached value is at least the largest active clamp and in the same bucket |
| UclampBuckets.BucketsBelowCache | customized-kernel/kernel/sched/core.c:1739-1747 | no bucket with tasks has a value above the cache |
| UclampBuckets.IncKeeps | customized-kernel/kernel/sched/core.c:1646-1673 | counting a task keeps counts, bucket maxima and cache right, also when leaving idle |
| UclampBuckets.DecKeeps | customized-kernel/kernel/sched/core.c:1684-1748 | releasing a task keeps them right, and the last one leaves its own maximum clamp and a zero minimum clamp behind |
| UclampBuckets.WarningsUnreachable | customized-kernel/kernel/sched/core.c:1721-1743 | neither defensive warning can fire |
| UclampBuckets.GoesIdleIffLast | customized-kernel/kernel/sched/core.c:1500-1546 | the idle flag is set exactly when the last counted task leaves |
| UclampBuckets.EnqueueKeeps | customized-kernel/kernel/sched/core.c:1750-1775 | an enqueue keeps both sides and the idle flag right |
| UclampBuckets.DequeueKeeps | customized-kernel/kernel/sched/core.c:1777-1798 | a dequeue keeps them right, also for a task enqueued before clamps were enabled |
| UclampBuckets.ReincKeeps | customized-kernel/kernel/sched/core.c:1800-1815 | moving a counted task to a new clamp keeps them right, also through a transient zero |
| UclampBuckets.ClampRq.constructor | customized-kernel/kernel/sched/core.c:1994-2006 | a new runqueue is idle with default values and satisfies the invariant |
| UclampBuckets.ClampRq.Enable | customized-kernel/kernel/sched/core.c:9288-9288 | enabling clamps while tasks are queued changes no count and keeps the invariant |
| UclampBuckets.ClampRq.FindMaxValue | customized-kernel/kernel/sched/core.c:1527-1546 | the downward scan finds the topmost bucket with tasks, and flags idle iff there is none |
| UclampBuckets.ClampRq.IncId | customized-kernel/kernel/sched/core.c:1646-1673 | refines counting on one side and leaves the other alone |
| UclampBuckets.ClampRq.DecId | customized-kernel/kernel/sched/core.c:1684-1748 | refines releasing on one side and leaves the other alone |
| UclampBuckets.ClampRq.Enqueue | customized-kernel/kernel/sched/core.c:1750-1775 | counts the task on both sides with its clamps, leaves every other task as it counts, and keeps the invariant; nothing while clamps are off |
| UclampBuckets.ClampRq.Dequeue | customized-kernel/kernel/sched/core.c:1777-1798 | releases the task on both sides, leaves every other task as it counts, and keeps the invariant; the last task leaves a zero minimum and its own maximum clamp |
| UclampBuckets.ClampRq.Reinc | customized-kernel/kernel/sched/core.c:1800-1815 | a counted task gets its new clamp, every other task and the other side stay as they are, the invariant holds |
| UclampBuckets.ClampRq.CacheIsSound | customized-kernel/kernel/sched/core.c:1671-1672 | in every valid state with active tasks a cached clamp is at least the plain maximum and exceeds it by less than the width of a bucket, unless the maximum is in the last bucket |
| UclampHierarchy.LeastIsLeast | customized-kernel/kernel/sched/core.c:9202-9212 | the closed forms are minima: below every request on the path and equal to one of them |
| UclampHierarchy.PathMinimum | customized-kernel/kernel/sched/core.c:9202-9212 | consistency fixes the effective clamps: the least maximum, and the least of all minima and maxima, on the root path |
| UclampHierarchy.Groups.Recompute | customized-kernel/kernel/sched/core.c:9199-9223 | stores what request and parent imply and reports whether it changed |
| UclampHierarchy.Groups.UpdateEff | customized-kernel/kernel/sched/core.c:9186-9232 | the pruned walk makes the whole hierarchy consistent, and refreshes exactly the groups whose clamps changed |
| UclampHierarchy.Groups.Write | customized-kernel/kernel/sched/core.c:9277-9307 | a new request keeps the whole hierarchy consistent |
| UclampHierarchy.Groups.EffectiveIsPathMinimum | customized-kernel/kernel/sched/core.c:9186-9232 | in a consistent hierarchy every group has the minima over its root path |
| TaskGroupWalk.VisitMakesCalls | customized-kernel/kernel/sched/core.c:1381-1410 | the recursive traversal makes the pre-order and post-order calls in sequence, up to the first non-zero result |
| TaskGroupWalk.Walk | customized-kernel/kernel/sched/core.c:1381-1410 | the goto walk terminates with the result and state of the recursive traversal |
| ProcessWalk.CallKid | customized-kernel/kernel/fork.c:3140-3147 | one visitor call: descend on positive, next on zero, stop on negative |
| ProcessWalk.Walk | customized-kernel/kernel/fork.c:3131-3161 | the goto walk terminates and visits what the recursive walk over threads and children visits, in the same order, starting from any thread of the top process |
| CfsQuota.ShiftFits | customized-kernel/kernel/sched/sched.h:2757-2761 | the shift fits 64 bits iff the quota is at most MAX_BW microseconds |
| CfsQuota.AcceptedIsExact | customized-kernel/kernel/sched/core.c:9414-9433 | for every accepted bandwidth the ratio is the exact quotient, positive, and not mistaken for "no limit" |
| CfsQuota.NormalizedIff | customized-kernel/kernel/sched/core.c:9611-9628 | an accepted bandwidth normalizes to "no limit" iff its quota is unlimited, and to its share otherwise |
| CfsQuota.WalkHierarchy | customized-kernel/kernel/sched/core.c:9630-9666 | the walk succeeds iff every group fits, and then every group has its tightest quota |
| CfsQuota.TightestIsMinimum | customized-kernel/kernel/sched/core.c:9644-9661 | the tightest quota along a path is the minimum of the finite ones, and unlimited iff there is none |
| CfsQuota.SuccessGivesPathMinimum | customized-kernel/kernel/sched/core.c:9630-9683 | after a success every group's hierarchical quota is the minimum finite quota on its root path |
| CfsQuota.UnifiedAlwaysSucceeds | customized-kernel/kernel/sched/core.c:9651-9655 | on the default hierarchy the walk never refuses |
| CfsQuota.LegacySucceedsIffNested | customized-kernel/kernel/sched/core.c:9656-9661 | on the legacy hierarchy it succeeds iff no finite quota exceeds the tightest one above it |
| CfsRefusal.RefusedWalk | customized-kernel/kernel/sched/core.c:9644-9663 | a change refused by the legacy walk leaves every hierarchical quota as it was iff the new quota exceeds the tightest one above the group; otherwise the group carries the refused quota |
| CfsRefusal.RefusedAtChild | customized-kernel/kernel/sched/core.c:9656-9663 | in a chain of two groups every quota for the upper one below that of its child is refused at the child, and stays |
| CfsRefusal.RefusedQuotaStays | customized-kernel/kernel/sched/core.c:9656-9663 | three accepted bandwidths, 100, 80 and 50 of 100 ms: with the first two in force, the third for the upper group is refused, and stays |
| CfsBandwidth.Hierarchy.Schedulable | customized-kernel/kernel/sched/core.c:9668-9683 | the goto walk with the quota visitor is the recursive one |
| CfsBandwidth.PathInShares | customized-kernel/kernel/sched/core.c:9630-9666 | along a path the tightest limit is "no limit" iff no quota is set on it and otherwise the smallest share of the quotas; limits are nested iff these shares are |
| CfsBandwidth.Hierarchy.OutOfRange | customized-kernel/kernel/sched/core.c:9409-9433 | the range tests refuse exactly quotas and periods below 1 ms, periods above 1 s, bursts above the quota, and sums above the maximum |
| CfsBandwidth.Hierarchy.CheckAndStore | customized-kernel/kernel/sched/core.c:9435-9444 | the walk with the new value in place and the store, in terms of normalized limits; says for every refusal what the hierarchical quotas are |
| CfsBandwidth.Hierarchy.SetBandwidth | customized-kernel/kernel/sched/core.c:9400-9444 | succeeds iff the range tests allow it and, on the legacy hierarchy, no stored quota leaves a larger share than one above it; stores the value only then; after a success every group is unlimited iff no quota is set on its path, and otherwise has the smallest share of those quotas; says for every refusal what the hierarchical quotas are |

## Left out

- Memory ordering: accesses are sequentially consistent, which stands for the barriers the protocol documents; locks, RCU, interrupts and IPIs appear only as the sections they protect.
- mm_types.h with the slot encoding helpers, and the place where nr_cpus_allowed is updated, are not part of this model; a slot is a datatype.
- Which clears and steals happen (the time, weight, `last_mm_cid` and `recent_cid` conditions) is left open: they may start at any time, so the results hold for any such policy.
- The allocator inside the protocol is one step that takes any clear bit; CidAllocator ties that step to the code.
- CidAllocator.AllocatedIdIsFreshAndAllowed: assumes that nr_cpus_allowed does not shrink during an allocation.
- Forward progress of the allocator with `cid_lock` and `use_cid_lock`.
- HVF entry and exit by class change, task_dead_hvf, fork and clear_hvf_values: they break the premises of the runs.
- Red-black recolouring: insertion and removal take any rebalancing that keeps the in-order sequence.
- The library sort of the CPU loads: any function that returns the same loads in ascending order.
- HVF trees, runqueues and the machine have entities with intended values; a run in which the values as written differ (HvfWordRuns says exactly when) would order its trees by a 32-bit difference, which is not modelled.
- HvfWords.InitExactIff: deadlines of 2^63 ms or more are left out, where the deadlines themselves wrap; likewise HvfWordLives and HvfWordRuns.
- wakeup_preempt_hvf, migrate_task_rq_hvf, balance_hvf and tracing: a comparison and wrappers.
- uclamp_eff_get: the effective clamp of a task is a parameter; parsing of percentages and refreshing of tasks are not modelled.
- CfsBandwidth.Hierarchy.constructor: asks for stored bandwidths in the accepted range; groups start without a quota and with a period of 100 ms.
- CFS bandwidth timers, throttling and the per-CPU refill after the quota check.
- Fair, real-time, deadline and extensible classes, wakeups, hotplug, core scheduling, process creation, user memory access.
