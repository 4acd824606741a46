# Scheduler and page-out daemon, modelled and proved in Dafny

This project models the ULE scheduler core of FreeBSD as this repository carries it, the run-queue policies the
repository swaps into it, and the decision logic of its page-out daemon, and proves what they promise. Where the source
updates a structure in place the model does too; each such method is proved to compute a function of the old state, and the
theorems are about those functions and about whole runs of them.

- Run queue: `Bits`, `StatusBits`, `Queues`, `Policies`, `RunQueues` (the queue with its status words, and all versions of
  `runq_add`), `RunqRuns` (any sequence of calls, any random outcomes), `Stealing`.
- One CPU: `Calendar` and `CalendarRuns` (the rotating timeshare queue), `Tdqs` and `TdqObjects` (`struct tdq`).
- All CPUs: `Accounts` (the books), `Smp` (every step of every CPU), `Topology` (`cpu_search`, `sched_pickcpu`), `Balancer`.
- One thread: `Interactivity`, `Usage`, `TdSchedObjects`.
- Page-out: `Isqrt`, `Cluster`, `Flush`, `Oom`, `InactiveScan`.
- `Arith` and `Chains` hold arithmetic and the invariant principle for runs.

Constants and macros of headers that are not part of this model are fixed as follows: 64 slots, 4 priorities a slot, two
status words of 32 bits, a batch of 7 pages taken from its end, nice values from -20 to 20. The priority bands stay symbolic,
with the relations of `sched_ule.c:126-132`.

What the code does, where it differs from what its comments or a reader may expect; the code is what is modelled:

- `runq_findbit_from` is right for every start below 64. From 64 on its first loop does not run, and the mask of the start
  falls on word 0: slots below start mod 32 are skipped. Its callers pass less than 64. (`StatusBits.FirstFromStart`)
- `runq_add` with `kern_switch_choose` outside 1..4 drops the thread. (`RunqRuns.AddQueues`)
- `runq_steal_from` can miss the only thread that may go, when it is the one `runq_choose_from` would return
  (`Stealing.HeadMissed`; `Stealing.StealFromComplete` is the exact condition). From a start of 64 on it makes a single pass,
  which begins at the start mod 32.
- The comment on `sched_interact_update` puts a halved history between 4/5 of the limit and the limit. It can be lower, down
  to 3/5. (`Interactivity.HalvedTooFar`; `Interactivity.HalvedRange` is the exact condition.)
- `sched_interact_score` can put a thread on the wrong side of 50 below a history of 2450; one that runs more than it sleeps
  only if the threshold is set above 50. (`Interactivity.ScoreWrongSide`; `Interactivity.ScoreOfRunner` and
  `Interactivity.ScoreOfSleeper` are the exact conditions.)
- `sched_interact_fork` divides by zero exactly below 2 Hz, for a sum that is positive as an int
  (`Interactivity.ForkDividesByZero`, `Interactivity.ForkFails`); a sum of 2^31 or more is not scaled as meant
  (`Interactivity.ForkBounds`).
- `vm_pageout_cluster` tries to align, yet a page at the start of an eligible block whose predecessor is eligible gets a
  cluster that starts before the block. (`Cluster.BlockMissed`; `Cluster.AlignedBlock` is the exact condition.)
- An out-of-memory vote lasts for one scan only, unless one failing scan is enough to vote, so domains that fail for ever out
  of step never make a quorum; and a domain that has met its target may still be counted when the killer starts.
  (`Oom.NextScanWithdraws`, `Oom.FailForEver`, `Oom.RecoveredDomainCounts`; `Oom.KillNeedsQuorum` is the exact condition.)
- With `vm_pageout_oom_seq` at 0 or less a domain votes after a scan that met its target. (`Oom.ContentVoter`,
  `Oom.VoteWithoutShortage`)

A locked section is one atomic step. A thread's priority is fixed while it is queued wherever order by priority is claimed;
`sched_thread_priority` can raise it in place. Loads, sums and times are unbounded integers where no wrap is at stake: the
clock does not wrap, and the sums of the topology search are bounded by an explicit condition on loads and CPUs.

## Model

| member | source | states |
|---|---|---|
| StatusBits.Set | Benchmark-tests-gitlab-asgn2/testkernel/kern_switch.c:357-368 | setting a bit sets that bit of the two words and no other |
| StatusBits.Clear | Benchmark-tests-gitlab-asgn2/testkernel/kern_switch.c:286-297 | clearing a bit clears that bit and no other |
| StatusBits.First | Benchmark-tests-gitlab-asgn2/testkernel/kern_switch.c:302-317 | the word scan returns the least set bit, -1 iff none is set |
| StatusBits.FirstFromStart | Benchmark-tests-gitlab-asgn2/testkernel/kern_switch.c:322-351 | the masked two-pass word scan returns the first set bit at or after the start, else the least set bit; for a start of 64 or more (one that lies outside the queue) it returns the first set bit from start mod 32 on, because the unused mask is applied to word 0 |
| RunQueues.Runq.constructor | Benchmark-tests-gitlab-asgn2/testkernel/kern_switch.c:271-280 | an initialised queue is valid and empty |
| RunQueues.Runq.FindBit | Benchmark-tests-gitlab-asgn2/testkernel/kern_switch.c:302-317 | runq_findbit returns the least non-empty slot |
| RunQueues.Runq.FindBitFrom | Benchmark-tests-gitlab-asgn2/testkernel/kern_switch.c:322-351 | runq_findbit_from returns the cyclically first non-empty slot at or after the start, for every start below 64; FindFrom says what the others give |
| Queues.FirstFromIsNearest | Benchmark-tests-gitlab-asgn2/testkernel/kern_switch.c:322-351 | the simple search is right: no non-empty slot is cyclically nearer than its result, and it fails only on an empty queue |
| RunQueues.Runq.Choose | Benchmark-tests-gitlab-asgn2/testkernel/kern_switch.c:590-608 | runq_choose returns the head of the least non-empty slot, null iff no thread is queued; its assertion cannot fire |
| RunQueues.Runq.ChooseFromIdx | Benchmark-tests-gitlab-asgn2/testkernel/kern_switch.c:610-629 | runq_choose_from returns the head of the slot runq_findbit_from finds, for any start; below 64 that is the cyclically first non-empty slot, and null is returned iff no thread is queued |
| RunQueues.Runq.RemoveIdx | Benchmark-tests-gitlab-asgn2/testkernel/kern_switch.c:642-662 | removal takes out exactly that thread, keeps bits and slots in step, and advances the caller's index iff it names the slot that became empty |
| RunQueues.Runq.EnqueueSorted | Benchmark-tests-gitlab-asgn2/benchmark2/kern_switch.c:366-394 | the insertion loop puts the thread before the first one of larger priority and nothing else moves; bits, slots and td_rqindex stay in step |
| RunQueues.Runq.SplatterSlot | Benchmark-tests-gitlab-asgn2/testkernel/kern_switch.c:410-429 | a kernel thread keeps its slot; a user thread gets a user slot, whatever random() returns |
| RunQueues.Runq.AddFifo | Benchmark-tests-gitlab-asgn2/testkernel/kern_switch.c:486-501 | FIFO insertion in the slot of the priority |
| RunQueues.Runq.AddSorted | Benchmark-tests-gitlab-asgn2/benchmark2/kern_switch.c:366-394 | sorted insertion in user slots, head or tail elsewhere |
| RunQueues.Runq.AddSplatter | Benchmark-tests-gitlab-asgn2/testkernel/kern_switch.c:405-441 | random user slot, FIFO inside it |
| RunQueues.Runq.AddSplatterSorted | Benchmark-tests-gitlab-asgn2/benchmark4/kern_switch4.c:367-417 | random user slot, sorted inside it; kernel threads FIFO |
| RunQueues.Runq.AddClassSplatter | Benchmark-tests-gitlab-asgn2/kern_switch3.c:366-405 | random slot inside the thread's own band, sorted inside it |
| RunQueues.Runq.AddMidSorted | Benchmark-tests-gitlab-asgn2/kern_switch.c:367-419 | random user slot, sorted only in slots 30 to 55 |
| RunQueues.Runq.Add | Benchmark-tests-gitlab-asgn2/testkernel/kern_switch.c:375-503 | the run-time switch selects one of the four policies, the queue stays valid, and a switch value outside 1..4 leaves the thread unqueued |
| RunQueues.Runq.AddPri | Benchmark-tests-gitlab-asgn2/testkernel/kern_switch.c:505-521 | insertion at the given slot, at the head iff preempted |
| Policies.ClassesKeptApart | Benchmark-tests-gitlab-asgn2/testkernel/kern_switch.c:405-486 | over all policies and random outcomes, kernel priorities land only in their own non-user slot and user priorities only in user slots |
| Policies.InsertPosUnique | Benchmark-tests-gitlab-asgn2/benchmark4/kern_switch4.c:402-412 | sorted insertion has one possible position |
| Policies.SwitchOne | Benchmark-tests-gitlab-asgn2/testkernel/kern_switch.c:486-501 | value 1 of the switch keeps the slot of the priority; head if preempted, else tail |
| Policies.SwitchTwo | Benchmark-tests-gitlab-asgn2/testkernel/kern_switch.c:375-403 | value 2 keeps the slot of the priority and puts the thread before the first of larger priority in slots 12-19 and 30-63; head or tail elsewhere |
| Policies.SwitchThree | Benchmark-tests-gitlab-asgn2/testkernel/kern_switch.c:405-441 | value 3 gives a user thread any of slots 12-19 and 30-63, a kernel thread its own; head or tail |
| Policies.SwitchFour | Benchmark-tests-gitlab-asgn2/testkernel/kern_switch.c:442-485 | value 4 gives the same slots, and puts a user thread before the first of larger priority |
| Policies.ClassBand | Benchmark-tests-gitlab-asgn2/kern_switch3.c:366-405 | a class-splattered thread may get every slot of the band of its priority, 12-19, 30-55 or 56-63, and no other; any other thread keeps its slot |
| Policies.ClassPosition | Benchmark-tests-gitlab-asgn2/kern_switch3.c:366-405 | and it is put before the first of larger priority in those slots |
| Policies.MidPlaces | Benchmark-tests-gitlab-asgn2/kern_switch.c:367-419 | a user thread may get any user slot, and is put before the first of larger priority exactly in slots 30 to 55 |
| RunqRuns.IndexAgrees | Benchmark-tests-gitlab-asgn2/testkernel/kern_switch.c:272-521 | over every sequence of additions and removals with the policy changed freely, the queue holds exactly the live threads, each once, in the slot td_rqindex names |
| RunqRuns.RunConserves | Benchmark-tests-gitlab-asgn2/testkernel/kern_switch.c:375-521 | over every run, counted with repetitions, what has left and what is queued is what was queued and what has entered |
| RunqRuns.AddQueues | Benchmark-tests-gitlab-asgn2/testkernel/kern_switch.c:375-503 | a call of runq_add queues its thread iff kern_switch_choose is 1, 2, 3 or 4 |
| RunqRuns.ClassesApart | Benchmark-tests-gitlab-asgn2/testkernel/kern_switch.c:405-486 | over every run from an empty queue, kernel threads occupy only slots 0-11 and 20-29 and user threads only 12-19 and 30-63 |
| RunqRuns.ChooseRespectsClasses | Benchmark-tests-gitlab-asgn2/testkernel/kern_switch.c:590-608 | runq_choose returns a user thread exactly when no thread of priority below 48 is queued and either a user thread stands in slots 12-19 or no kernel thread is queued |
| RunqRuns.StaysSorted | Benchmark-tests-gitlab-asgn2/kern_switch3.c:366-405 | over every run under policies that sort a slot, it stays ordered by priority and by arrival among equals, for any random outcomes |
| RunqRuns.StaysFifo | Benchmark-tests-gitlab-asgn2/testkernel/kern_switch.c:486-501 | over every run a slot fed only by unsorted additions that were not preempted stays in the order of arrival |
| RunqRuns.PreemptedFirst | Benchmark-tests-gitlab-asgn2/testkernel/kern_switch.c:486-501 | a preempted thread that is not sorted goes in ahead of its slot |
| RunqRuns.BandsKept | Benchmark-tests-gitlab-asgn2/kern_switch3.c:366-405 | over every class-splatter run from an empty queue every thread stays in the band of its priority |
| RunqRuns.ChooseIsLeast | Benchmark-tests-gitlab-asgn2/benchmark2/kern_switch.c:366-394 | without splatter, runq_choose returns the earliest arrival of the least priority of the whole queue whenever its slot is a sorted one |
| Calendar.OrdinaryPlacement | Benchmark-tests-gitlab-asgn2/sched_ule.c:485-497 | the distance from the removal index is the priority's share of the 64 slots, to the nearest slot below, one further (at most 63) while the indices differ; never the slot that drains, wrap of the u_char included |
| Calendar.PlacementMonotone | Benchmark-tests-gitlab-asgn2/sched_ule.c:485-497 | a better priority never lands further away |
| Calendar.BestLandsFirst | Benchmark-tests-gitlab-asgn2/sched_ule.c:485-497 | the best batch priority lands at the removal index, or one behind it while that slot drains |
| Calendar.BetterLandsCloser | Benchmark-tests-gitlab-asgn2/sched_ule.c:485-497 | with at most 64 batch priorities a better one lands strictly closer |
| Calendar.AddPlaces | Benchmark-tests-gitlab-asgn2/sched_ule.c:478-499 | the thread is put in at the head of its slot if preempted, else at the tail; preempted and borrowing threads go to the removal index, ordinary ones where OrdinaryPlacement says |
| Calendar.AddOk | Benchmark-tests-gitlab-asgn2/sched_ule.c:478-499 | an addition of any kind keeps the index relation and the queue |
| Calendar.RemOk | Benchmark-tests-gitlab-asgn2/sched_ule.c:523-527 | a removal keeps them, and no other thread gets further from the removal index |
| Calendar.TickOk | Benchmark-tests-gitlab-asgn2/sched_ule.c:2398-2402 | a clock tick keeps them, and no thread gets further from the removal index |
| CalendarRuns.NeverOvertaken | Benchmark-tests-gitlab-asgn2/sched_ule.c:2398-2402 | over every run of additions, removals and ticks, a thread that stays queued never gets further from the removal index, and the insert index is the removal index or one ahead of it, with a non-empty slot behind |
| CalendarRuns.RoundAdvances | Benchmark-tests-gitlab-asgn2/sched_ule.c:2398-2402 | a tick followed by the draining of the front slot moves the removal index by exactly one |
| CalendarRuns.BoundedDrain | Benchmark-tests-gitlab-asgn2/sched_ule.c:2398-2402 | a thread at distance d is at distance d-k after k rounds and cannot survive more than d of them |
| CalendarRuns.DrainEnds | Benchmark-tests-gitlab-asgn2/sched_ule.c:485-497 | with n threads in front, n choices empty the slot and release the index, however many ordinary threads arrive meanwhile |
| CalendarRuns.DrainIsRound | Benchmark-tests-gitlab-asgn2/sched_ule.c:2398-2402 | a tick, then ordinary additions and choices with as many choices as threads in front of a lagging index, make a round |
| CalendarRuns.IdleTurn | Benchmark-tests-gitlab-asgn2/sched_ule.c:2398-2402 | where the slot in front is empty a tick alone is such a turn |
| CalendarRuns.BoundedWait | Benchmark-tests-gitlab-asgn2/sched_ule.c:2398-2402 | under ordinary additions and choices alone a thread at distance d is chosen within d+1 such turns, and comes exactly one slot closer with each until then |
| CalendarRuns.FrontIsChosen | Benchmark-tests-gitlab-asgn2/sched_ule.c:1357 | tdq_choose takes from the slot that drains |
| TdqObjects.TdqObject.TimeshareSlot | Benchmark-tests-gitlab-asgn2/sched_ule.c:485-497 | the slot computed in place lies at the priority's share of the 64 slots from the removal index, one further while the indices differ, and is never the slot that drains; preempted and borrowing threads go to the removal index |
| TdqObjects.TdqObject.constructor | Benchmark-tests-gitlab-asgn2/sched_ule.c:1378-1394 | a tdq that is set up is in order and empty |
| TdqObjects.TdqObject.RunqAdd | Benchmark-tests-gitlab-asgn2/sched_ule.c:459-503 | tdq_runq_add puts the thread in the realtime, timeshare or idle queue by its priority, in a realtime or idle queue where the runq_add policy in force may put it, and counts it transferable iff not pinned; nothing else changes |
| TdqObjects.TdqObject.RunqRem | Benchmark-tests-gitlab-asgn2/sched_ule.c:510-530 | tdq_runq_rem takes it from the queue it is in and uncounts it iff it was counted, advancing tdq_ridx only past a drained slot |
| TdqObjects.TdqObject.Add | Benchmark-tests-gitlab-asgn2/sched_ule.c:2511-2527 | tdq_add, load included |
| TdqObjects.TdqObject.Rem | Benchmark-tests-gitlab-asgn2/sched_ule.c:2586-2604 | sched_rem, load included |
| TdqObjects.TdqObject.Choose | Benchmark-tests-gitlab-asgn2/sched_ule.c:2463-2479 | sched_choose takes off its queue a thread that heads a slot of the realtime queue, else of the timeshare queue with no non-empty slot nearer to tdq_ridx, else of the idle queue, and leaves the load; none iff nothing is queued |
| TdqObjects.TdqObject.Clock | Benchmark-tests-gitlab-asgn2/sched_ule.c:2398-2402 | the index rotation in place |
| Tdqs.RunqAddOk | Benchmark-tests-gitlab-asgn2/sched_ule.c:459-503 | an addition keeps the three queues disjoint and in order, and the transferable count exact |
| Tdqs.RunqAddPlaces | Benchmark-tests-gitlab-asgn2/sched_ule.c:459-503 | the priority alone decides the queue; a realtime or idle thread is put in at the given place and no other thread moves, and the other two queues stay as they are |
| Tdqs.RunqRemOk | Benchmark-tests-gitlab-asgn2/sched_ule.c:510-530 | so does a removal |
| Tdqs.ChooseOk | Benchmark-tests-gitlab-asgn2/sched_ule.c:1348-1373 | tdq_choose finds a realtime thread if there is one, else a timeshare thread, else an idle one: the head of the slot nearest to the start (0, tdq_ridx, 0) of that queue; none iff all three are empty |
| Tdqs.StealSound | Benchmark-tests-gitlab-asgn2/sched_ule.c:1182-1194 | tdq_steal returns only a queued eligible thread, a realtime one whenever one may go and an idle one only when no other is found, and returns one iff one other than the next timeshare thread is eligible, or that one is and the scan looks at it |
| Stealing.RunqSteal | Benchmark-tests-gitlab-asgn2/sched_ule.c:1153-1177 | the word, bit and list loops compute the first eligible thread in slot order |
| Stealing.RunqStealFrom | Benchmark-tests-gitlab-asgn2/sched_ule.c:1109-1148 | the two-pass scan computes the reference walk, over any queue and start; from 64 on a single walk from start mod 32 |
| Stealing.StealLinearComplete | Benchmark-tests-gitlab-asgn2/sched_ule.c:1153-1177 | runq_steal finds a thread iff an eligible one is queued, and it is the first in slot order |
| Stealing.StealFromComplete | Benchmark-tests-gitlab-asgn2/sched_ule.c:1109-1148 | runq_steal_from returns a thread iff one other than the head runq_choose_from would pick is eligible, or the head is and is alone or is met a second time; what it returns is queued and eligible |
| Stealing.StealFromOrder | Benchmark-tests-gitlab-asgn2/sched_ule.c:1109-1148 | of the threads in the order of the two passes, runq_steal_from takes the first eligible one behind the very first, else the last one met if that may go |
| Stealing.HeadMissed | Benchmark-tests-gitlab-asgn2/sched_ule.c:1126-1146 | an eligible head with one ineligible thread behind it is not stolen |
| Accounts.TotalLoadCounts | Benchmark-tests-gitlab-asgn2/sched_ule.c:532-568 | balanced books add up: the loads of all CPUs sum to the number of runnable and running threads |
| Accounts.EnqueueBalances | Benchmark-tests-gitlab-asgn2/sched_ule.c:2511-2527 | queueing a thread on its ts_cpu balances the books of all CPUs |
| Accounts.YieldBalances | Benchmark-tests-gitlab-asgn2/sched_ule.c:2033-2048 | so does re-queueing the running thread without counting its load again |
| Smp.Enqueue | Benchmark-tests-gitlab-asgn2/sched_ule.c:2544-2572 | sched_setcpu and tdq_add keep the machine in order |
| Smp.Dequeue | Benchmark-tests-gitlab-asgn2/sched_ule.c:2586-2604 | sched_rem finds the thread on TDQ_CPU(ts_cpu), its load assertion holds, and the machine stays in order |
| Smp.Yield | Benchmark-tests-gitlab-asgn2/sched_ule.c:2033-2048 | re-queueing in sched_switch leaves the CPU without a running thread, queues that thread, leaves the load, and keeps the machine in order |
| Smp.Leave | Benchmark-tests-gitlab-asgn2/sched_ule.c:1953-1964 | the tdq_load_rem of a sleeping, exiting or migrating thread takes one load off its CPU and nothing else, its assertion holds, and the machine stays in order |
| Smp.Pick | Benchmark-tests-gitlab-asgn2/sched_ule.c:2463-2479 | the CPU runs the thread tdq_choose picks, which leaves its queue with the load as it was; nothing changes on an empty CPU; the machine stays in order |
| Smp.Change | Benchmark-tests-gitlab-asgn2/sched_ule.c:1748-1753 | a priority or affinity change, with sched_rem and sched_add where the source makes them, changes that thread alone, moves it only if it is queued and must move, and keeps the machine in order |
| Smp.Clock | Benchmark-tests-gitlab-asgn2/sched_ule.c:2398-2402 | a tick keeps the machine in order |
| Smp.Move | Benchmark-tests-gitlab-asgn2/sched_ule.c:951-980 | tdq_move changes only the CPU of the stolen thread and the books of two CPUs |
| Smp.StolenMayMove | Benchmark-tests-gitlab-asgn2/sched_ule.c:1182-1194 | a thread that tdq_steal returns is queued on that CPU, not pinned and allowed on the target |
| Smp.InitialOk | Benchmark-tests-gitlab-asgn2/sched_ule.c:1398-1437 | the state after sched_setup is in order |
| Smp.StaysBalanced | Benchmark-tests-gitlab-asgn2/sched_ule.c:2005-2066 | every step of every CPU, in any order, keeps the machine in order, calendars included |
| Smp.AccountingHolds | Benchmark-tests-gitlab-asgn2/sched_ule.c:532-568 | in every reachable state tdq_load is queued threads plus the running one, tdq_transferable the queued threads not pinned, and a thread is queued exactly on TDQ_CPU(ts_cpu); the loads sum to the runnable and running threads |
| Topology.CpuSearchLowest | Benchmark-tests-gitlab-asgn2/sched_ule.c:669-778 | the recursive search returns the group's total, -1 iff no eligible CPU, else a CPU on a path that is least at every level, whatever the random numbers and the order of CPUs |
| Topology.CpuSearchHighest | Benchmark-tests-gitlab-asgn2/sched_ule.c:669-778 | the same for the most loaded CPU |
| Topology.SchedLowest | Benchmark-tests-gitlab-asgn2/sched_ule.c:808-821 | -1 iff no CPU of the tree meets mask, priority and load limits, else such a CPU on a least path |
| Topology.SchedHighest | Benchmark-tests-gitlab-asgn2/sched_ule.c:826-836 | -1 iff no CPU meets mask, load limit and has a transferable thread, else such a CPU on a most loaded path |
| Topology.FlatLeast | Benchmark-tests-gitlab-asgn2/sched_ule.c:658-667 | without nested groups the least path is a least loaded eligible CPU, and any of them |
| Topology.FlatLowest | Benchmark-tests-gitlab-asgn2/sched_ule.c:658-778 | there sched_lowest finds an eligible CPU none is less loaded than, and the preferred one among equals |
| Topology.FlatHighest | Benchmark-tests-gitlab-asgn2/sched_ule.c:658-778 | and sched_highest one none is more loaded than |
| Topology.LoadsFit | Benchmark-tests-gitlab-asgn2/sched_ule.c:669-778 | no total reaches the initial INT_MAX if CPUs times the greatest weight does not |
| Topology.SchedPickcpu | Benchmark-tests-gitlab-asgn2/sched_ule.c:1245-1345 | unless the thread must stay, the CPU picked is in its cpuset and the assertion that one was found holds; it is the interrupt CPU, the idle last CPU, or what the first of the three searches to succeed finds; this CPU instead of that only where it is at most one thread more loaded and runs worse priority, each exactly under its condition |
| Balancer.BalancePair | Benchmark-tests-gitlab-asgn2/sched_ule.c:923-946 | a transfer goes from a more to a less loaded CPU, moves one thread that may run there, keeps threads and total load, and never raises the sum of squared loads; none is made only if no thread may go |
| Balancer.TryLows | Benchmark-tests-gitlab-asgn2/sched_ule.c:854-878 | the inner search ends; if nothing moves, every less loaded CPU of the mask was tried and no thread may go there |
| Balancer.BalanceGroup | Benchmark-tests-gitlab-asgn2/sched_ule.c:838-880 | the balancer ends after passes each of which takes a donor on a most loaded path of the mask and moves one thread from it to a less loaded CPU of the mask, or finds that none may go to any; at the end no donor is left in the mask, or no CPU, or none less loaded than the last donor; a CPU that left the mask gave one thread, or received one, or was refused everywhere, and no other load changes; threads and total load are kept, threads go only where they may, and the sum of squared loads never rises; with no transfer nothing changes |
| Balancer.PassesEachOnce | Benchmark-tests-gitlab-asgn2/sched_ule.c:854-879 | over any sequence of such passes each CPU that leaves the mask gives or receives exactly one thread or was refused, and every other load is what it was |
| Balancer.NoTransfer | Benchmark-tests-gitlab-asgn2/sched_ule.c:854-879 | without a transfer the machine is as before, and the first donor was refused by every less loaded CPU |
| Balancer.SomePlacement | Benchmark-tests-gitlab-asgn2/testkernel/kern_switch.c:497-501 | the head of a slot has room for any thread, so the placements the balancer is proved for exist |
| Balancer.MoveEvens | Benchmark-tests-gitlab-asgn2/sched_ule.c:951-980 | what one move does to total and sum of squares |
| Interactivity.ScoreOfRunner | Benchmark-tests-gitlab-asgn2/sched_ule.c:1503-1537 | the score of a thread that runs more than it sleeps is in [0,100] and at least 50 exactly when the stated condition holds, in particular from a history of 2450 on |
| Interactivity.ScoreOfSleeper | Benchmark-tests-gitlab-asgn2/sched_ule.c:1503-1537 | the mirror image for a thread that sleeps more |
| Interactivity.ScoreRange | Benchmark-tests-gitlab-asgn2/sched_ule.c:1503-1537 | every score is in [0,100] |
| Interactivity.ScoreValue | Benchmark-tests-gitlab-asgn2/sched_ule.c:1503-1537 | the score is how often a fiftieth of the longer sum (rounded down, at least 1) goes into the shorter, taken from 100 for a runner; 50 for equal sums, 0 for none; and 50 for any thread that sleeps no more than it runs under a threshold of at most 50 |
| Interactivity.ScoreWrongSide | Benchmark-tests-gitlab-asgn2/sched_ule.c:1519-1522 | a history of 2449 against 2448 scores below 50 for the longer runner, and its mirror image above 50 for the longer sleeper |
| Interactivity.UpdateBounds | Benchmark-tests-gitlab-asgn2/sched_ule.c:1595-1633 | the decayed history is at most the limit plus one, at least three fifths of the limit less one when it was scaled, and never reverses which of the two is longer |
| Interactivity.UpdateValue | Benchmark-tests-gitlab-asgn2/sched_ule.c:1595-1633 | the value in each range of the sum: unchanged, four fifths or half of either up to rounding, or the limit for the longer and 1 for the other |
| Interactivity.HalvedRange | Benchmark-tests-gitlab-asgn2/sched_ule.c:1620-1629 | a halved history is at most the limit, and at least 4/5 of it, as the comment says, exactly when what the two halvings keep is 8/5 of the limit |
| Interactivity.HalvedTooFar | Benchmark-tests-gitlab-asgn2/sched_ule.c:1620-1629 | at 1 Hz the history (3073, 3072) is halved to less than 4/5 of the limit |
| Interactivity.HistoryBounded | Benchmark-tests-gitlab-asgn2/sched_ule.c:2412-2413 | over any run of charges that leave room in a word beside a bounded history, no u_int sum wraps and the history stays bounded |
| Interactivity.ForkDividesByZero | Benchmark-tests-gitlab-asgn2/sched_ule.c:1640-1654 | the division is by zero exactly below 2 Hz with a sum whose low 32 bits lie between 0 and 2^31 |
| Interactivity.ForkFails | Benchmark-tests-gitlab-asgn2/sched_ule.c:1649-1650 | at 1 Hz the history (1, 0) divides by zero |
| Interactivity.ForkValue | Benchmark-tests-gitlab-asgn2/sched_ule.c:1640-1654 | both sums are divided by the number of times the limit goes into the total; a total within the limit, or negative as an int, changes nothing |
| Interactivity.ForkBounds | Benchmark-tests-gitlab-asgn2/sched_ule.c:1640-1654 | from 2 Hz on a child keeps the order of the two, and starts below twice the fork limit exactly when the sum is below 2^31 or was that small already |
| TdSchedObjects.TdSched.InteractUpdate | Benchmark-tests-gitlab-asgn2/sched_ule.c:1595-1633 | the in-place update computes that function, and its result is bounded and not below three fifths less one |
| TdSchedObjects.TdSched.InteractFork | Benchmark-tests-gitlab-asgn2/sched_ule.c:1640-1654 | the in-place scaling computes that function and fails exactly where it divides by zero; from 2 Hz on the result is below twice the limit exactly as stated |
| TdSchedObjects.TdSched.PctcpuUpdate | Benchmark-tests-gitlab-asgn2/sched_ule.c:1693-1713 | the in-place update computes the window function for any window, never divides by zero, and keeps a sound window sound exactly when no gap over SCHED_TICK_TARG is charged as running |
| Usage.WindowKept | Benchmark-tests-gitlab-asgn2/sched_ule.c:1693-1713 | the usage window stays sound exactly when no gap over SCHED_TICK_TARG is charged as running |
| Usage.WindowBroken | Benchmark-tests-gitlab-asgn2/sched_ule.c:1705-1711 | a gap of 11 ticks charged as running at 1 Hz breaks a sound window |
| Usage.UpdatedValue | Benchmark-tests-gitlab-asgn2/sched_ule.c:1693-1713 | after an update the window ends at its time, is SCHED_TICK_TARG long if it was stale or too long, and has gained 1024 for each tick charged as running |
| Usage.RescaledValue | Benchmark-tests-gitlab-asgn2/sched_ule.c:1705-1707 | the rescaled ticks are the share of the kept part of the window, short of it by less than one tick rate |
| Usage.WindowAlways | Benchmark-tests-gitlab-asgn2/sched_ule.c:1693-1713 | over every run with regular charges no update divides by zero and the window is sound |
| Usage.PriTicksInRange | Benchmark-tests-gitlab-asgn2/sched_ule.c:165-171 | SCHED_PRI_TICKS is at most SCHED_PRI_RANGE |
| Usage.PriTicksValue | Benchmark-tests-gitlab-asgn2/sched_ule.c:165-171 | the usage term counts ticks in the least steps of which SCHED_PRI_RANGE cover the window |
| Usage.UsageMonotone | Benchmark-tests-gitlab-asgn2/sched_ule.c:165-171 | more ticks in the same window never give a smaller usage term |
| Usage.PriorityInBand | Benchmark-tests-gitlab-asgn2/sched_ule.c:1543-1588 | for nice in [-20,20] both assertions of sched_priority hold: an interactive thread goes to the realtime queue, any other to the calendar's batch band |
| Usage.PriorityMonotone | Benchmark-tests-gitlab-asgn2/sched_ule.c:1543-1588 | a thread with no better score, usage and nice value never gets the better priority |
| Usage.InteractiveValue | Benchmark-tests-gitlab-asgn2/sched_ule.c:1557-1565 | an interactive priority grows from the best one in equal steps with score and nice value, counted from 0 |
| Usage.BatchValue | Benchmark-tests-gitlab-asgn2/sched_ule.c:1566-1583 | a batch priority is the twentieth of its band plus capped usage plus nice |
| Usage.BandSplit | Benchmark-tests-gitlab-asgn2/sched_ule.c:126-150 | nice values take 40 priorities of the timeshare band; the interactive band has half of the rest, rounded down |
| Isqrt.Isqrt | misc-code/vm_pageout.c:933-952 | root*root <= num < (root+1)*(root+1) for every 32-bit num |
| Isqrt.Digit | misc-code/vm_pageout.c:943-949 | each digit is right and no sum leaves 32 bits |
| Isqrt.RootUnique | misc-code/vm_pageout.c:933-952 | no other number has that property |
| Cluster.PageoutCluster | misc-code/vm_pageout.c:321-421 | the goto loops end inside mc[2N] with exactly the pages of the window |
| Cluster.WindowIsMaximal | misc-code/vm_pageout.c:321-421 | the window is contiguous, holds the page, at most N pages and only eligible neighbours, and if shorter than N is blocked on both sides |
| Cluster.AlignedBlock | misc-code/vm_pageout.c:346-353 | an eligible aligned block is the cluster iff the page is not its first, or the page before is not eligible, or N is 1 |
| Cluster.BlockMissed | misc-code/vm_pageout.c:346-353 | a page that starts an eligible block of four behind an eligible page gets the cluster one page before the block |
| Flush.PageoutFlush | misc-code/vm_pageout.c:437-547 | pages written, run length up to the first AGAIN, error flag for exactly the failures in the run, the fate of each page, which pages stay busy and whose changes are thrown away, and the paging-in-progress count |
| Flush.FatesAre | misc-code/vm_pageout.c:475-541 | by status and backing: in flight iff PEND, deactivated iff OK or BAD and still in laundry, unswappable iff FAIL on swap, activated iff ERROR or FAIL elsewhere, else left; OK, in-flight and unswappable pages count as paged out |
| Flush.PendIsWritten | misc-code/vm_pageout.c:475-541 | pages still in flight are among those counted as paged out, and no page counts twice |
| Oom.CounterIsVotes | misc-code/vm_pageout.c:1645-1693 | over all interleavings the counter is the number of outstanding votes, in [0, vm_ndomains] |
| Oom.KillNeedsAllVotes | misc-code/vm_pageout.c:1670-1684 | the killer starts only from the increment that makes the votes of all domains outstanding at once |
| Oom.StreaksHold | misc-code/vm_pageout.c:1651-1669 | over all interleavings, with vm_pageout_oom_seq at least 1, a vote outstanding was cast after that many scans in a row each of which had a positive shortage and ended with all of it |
| Oom.KillNeedsQuorum | misc-code/vm_pageout.c:1664-1684 | with vm_pageout_oom_seq at least 1, each vote the killer starts from was cast after that many scans in a row without progress on a positive shortage, and those are the domain's latest scans exactly unless it has made progress since and is withdrawing |
| Oom.NextScanWithdraws | misc-code/vm_pageout.c:1656-1662 | the next scan of a domain whose vote stands withdraws it exactly when two or more such scans are asked for, or it started without a shortage or made progress |
| Oom.VotesWhenDue | misc-code/vm_pageout.c:1651-1669 | from a reset counter, scans in a row without progress on positive shortages cast a vote when vm_pageout_oom_seq of them are made, and not before |
| Oom.RecoveredDomainCounts | misc-code/vm_pageout.c:1658-1660 | a run in which the killer starts while a recovered domain has not yet taken its vote off the counter |
| Oom.VoteWithoutShortage | misc-code/vm_pageout.c:1651-1669 | a scan that started without a shortage or made progress casts a vote exactly when vm_pageout_oom_seq is 0 or less and no vote stands |
| Oom.ContentVoter | misc-code/vm_pageout.c:1651-1669 | at 0 the first scan of a domain votes although it met its target |
| Oom.FailForEver | misc-code/vm_pageout.c:1656-1662 | with two or more asked for and two or more domains, there are runs of any length in which every scan of every domain fails and the killer never starts |
| InactiveScan.SweepFrom | misc-code/vm_pageout.c:264-304 | a dequeueing batch takes its pages out of the list, leaves other markers in place, moves the scan marker behind what it passed, counts each entry, and lowers pq_cnt by the pages taken; it is empty only when the scan budget is used up |
| InactiveScan.CollectInPlace | misc-code/vm_pageout.c:264-304 | a batch that leaves pages in the list is the next entries in order, and only the scan marker moves, behind them |
| InactiveScan.ReinsertPage | misc-code/vm_pageout.c:1305-1323 | a page goes back once, ahead of vmd_inacthead, at the tail, or before the scan marker, by its flags, which are cleared, and no other entry moves; a page whose queue state changed does not |
| InactiveScan.ReinsertBatch | misc-code/vm_pageout.c:1331-1353 | the page joins the batch, or, when the batch is full, it and every page of the batch go back once and pq_cnt counts them |
| InactiveScan.Examine | misc-code/vm_pageout.c:1410-1560 | a page gets a second chance iff a queue operation is pending on it; any other is settled by the verdict its tests call for, stated for each verdict, and left in the queue state of that verdict |
| InactiveScan.OneIsDue | misc-code/vm_pageout.c:1410-1560 | exactly one verdict is due by the tests: activated iff in use by no one, valid, mapped and referenced; laundered iff dirty, of a live object and not referenced; and so on for each of the eight |
| InactiveScan.FreedIsSafe | misc-code/vm_pageout.c:1417-1553 | a page is freed iff it is in the queue, not held, wired or busy, and is invalid, or clean and not referenced (or its unmapped object is dead) |
| InactiveScan.InactiveQueue.ScanInactive | misc-code/vm_pageout.c:1359-1636 | every page that was queued is queued once again at the end or has left for the reason its tests give, never both; the shortage falls by one for each page freed; the additional shortage is the deficit and the examinations that found a page gone, held or busy; the scan counts as failing for the out-of-memory vote iff the shortage was positive and no page was freed; a missed target means that as many entries as the queue had pages were scanned and all but markers examined; the laundry is asked for exactly as stated |
| InactiveScan.InactiveQueue.RequestLaundry | misc-code/vm_pageout.c:1593-1610 | a positive target asks an idle laundry thread that can work for shortfall or background laundering by whether the target was missed, and adds the pages freed |
| InactiveScan.CntCountsPages | misc-code/vm_pageout.c:302-303 | between scans pq_cnt is the number of pages physically queued |

## Left out

- Locks, fences, inter-processor interrupts, context switches, turnstiles, tracing, sysctl handlers, panic mode and boot code
  beyond the state it leaves.
- `tdq_lowpri`, `tdq_sysload`, time slices and switch counts: kept by single assignments nothing here depends on; the
  searches take `tdq_lowpri` as data.
- `runq_check`, `runq_choose_fuzz`, `cpu_search_both`, `tdq_idled` and `tdq_trysteal`: not called by what is modelled, or
  loops around `sched_highest` and `tdq_move`, both of which are here.
- Termination of the loop that redraws `random()`; the choice is any value the loop can leave with.
- A change of `kern_switch_choose` during one call of `runq_add`: the switch is read once a call.
- A status bitmap of one 64-bit word, and the machine representation of a word: words are sequences of 32 booleans.
- RunQueues.Thread.constructor: td_pinned and td_cpuset are constants of a queued thread, no operation here changes them.
- TdqObjects.TdqObject.RunqAdd: the three embedded run queues are held as the slot sequences that the run-queue methods are
  proved to compute, and a policy is in force at every call.
- Smp.StaysBalanced: tdq_move and sched_add are single steps, as both queues are locked; sched_switch_migrate is two.
- Balancer.BalanceGroup: the loads do not change under the balancer by other CPUs' steps, and no sum of loads overflows;
  the random interval between balancing rounds is not modelled.
- Topology.SchedPickcpu: the outcome of the affinity tests is a parameter, and the search starts after SMP start-up.
- Usage.WindowKept: wrap-around of the tick counter, and the 32-bit width of ts_ticks, are not modelled.
- Cluster.PageoutCluster: whether a page is eligible does not change during the call; indices stand for pages.
- Flush.PageoutFlush: the pager answers with arbitrary statuses; its work, page contents and page locks are not modelled.
- InactiveScan.InactiveQueue.ScanInactive: no other thread runs during the scan, the tests of a page and its object answer
  from fixed data, and statistics, the wake-ups and the swapping out of idle processes are not modelled.
- Oom.KillNeedsQuorum: vm_pageout_oom_seq does not change during a run; choosing the victim is not modelled.
- The active-queue scan, laundering, swap-out, victim selection and the page daemon's main loops in `vm_pageout.c`.
- Unfinished or duplicate variants: `kern_switch1.c`, `kern_switch2.c`, `kern_switch_test.c`, `kern_switch_orig.c`, `test*.c`,
  `benchmark1`, `benchmark3`, `vm_pageout_orig.c` and the other page-out copies.
- The repository's web servers, load balancers, shells, coursework programs, scripts and benchmarks.
