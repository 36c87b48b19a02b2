# The 2.4 O(1) scheduler with SHORT tasks, and its neighbours

A model in Dafny of the process-management core of a modified Linux 2.4.18
kernel, with proofs of what that core is for. The kernel adds a SHORT policy
to the O(1) scheduler: a SHORT task asks for some milliseconds and a number of
trials, gets a shorter slice with every trial, and becomes *overdue* when its
trials or its slices run out.

Check everything with `dafny verify dfyconfig.toml` (Dafny 4.11).

## Modules

The scheduler is modelled twice. `SchedSpec` is the scheduler without any
index: four roles of 140 FIFO lists, the fields of each task, and one function
per operation. `RunqueueModel` is the scheduler as it is coded: a class with
four embedded priority arrays, bitmaps, counters, role pointers and a `p->array`
in every task; each method is proved to compute the function of the same name,
and to keep bitmap, counters and pointers in agreement with the lists.
Everything else about the scheduler is proved on the functions.

| file | contents |
|---|---|
| `Lists.dfy` | removal, insertion and totals of lists |
| `TaskModel.dfy` | the scheduling fields of one task: priorities, slices, one tick, the fork split |
| `Entities.dfy` | task and priority array |
| `SchedSpec.dfy`, `SchedInvariant.dfy` | the operations without indexes, and what each of them keeps |
| `SchedRuns.dfy` | whole runs |
| `SchedPick.dfy` | the pick of `schedule()` against the policy it implements |
| `Runqueue.dfy` | `struct runqueue`, operation by operation |
| `ShortBudget.dfy`, `ForkTrees.dfy`, `ShortLiveness.dfy` | budgets of SHORT tasks: of one task, over families that fork and die, in a system left to itself |
| `RealTimeTurns.dfy`, `OtherTurns.dfy` | turns of real-time tasks, and of OTHER tasks across the array switch |
| `Interactivity.dfy` | priorities, sleep averages and slices as arithmetic |
| `Effects.dfy` | what each operation brings about for the task it is called on |
| `Ranks.dfy`, `Signals.dfy` | what runs keep about priorities, and signals against interruptible sleep |
| `LoadBalance.dfy` | `load_balance` on several runqueues |
| `WaitQueue.dfy`, `Completion.dfy` | wait queues, and completions as interleaved steps |
| `PidAllocator.dfy`, `PidHash.dfy` | `get_pid` with its cache, and the pid hash |
| `Family.dfy` | parent, child and sibling links, and what `exit_notify` does to them |
| `SwitchRing.dfy` | the ring of context-switch records |
| `Witnesses.dfy` | inputs at which the code does not do what one would expect |
| `Files.dfy` | `copy_files` and `close_files` |

HZ is a parameter between 100, below which the minimal slice would be zero, and
400000, beyond which `5000 * HZ` leaves the C int. Each region that holds a lock
is one step; only `complete()` is one step per attempt of its walk. Time since a
sleep stamp, the interactivity test, pending signals, capabilities, failing
allocations and faulting user memory are parameters. That
every file in a table has its open bit set is an assumption of reference-count
neutrality, `FileTables.ForkExitNeutral`.

## Where the code differs from what one would expect

Properties the code does not have. For each there is a theorem that says exactly
when it fails.

- A granted OTHER to SHORT change of a task that is off the queues leaves
  `p->array` pointing at the SHORT array
  (`RunqueueModel.Runqueue.SetScheduler`). A later wake-up makes the task
  runnable without queueing it (`RunqueueModel.Runqueue.TryToWakeUp`,
  `Witnesses.LoseSleeper`).
- A granted SHORT to SHORT change takes the task off the queues and does not
  put it back (`SchedInvariant.SetSchedulerKeeps`, `Witnesses.RunnerIsTakenOff`).
- A request worth less than one tick is admitted with a slice of zero, which
  wraps around and lasts 2^32 ticks (`ShortBudget.AdmittedBudget`,
  `Witnesses.TinyRequestLastsForever`).
- The comment at `effective_prio` says that the dynamic priority of an overdue
  task is 0; the function yields 100 (`TaskModel.EffectivePrioOfShort`). Priority
  0 comes from the tick, and lasts (`SchedRuns.OverdueForever`).
- The comparison by which a wake-up asks for a reschedule is not the order in
  which `schedule()` picks (`SchedPick.WakePreempts`, `Witnesses.OverdueDisturbs`).
- The comment in `set_user_nice` promises a reschedule when a priority is
  increased; the comparison is made after the assignment, so only the running
  task itself is ever asked to leave (`Effects.NiceSets`,
  `Witnesses.RaisedWaits`). A call with the level a task has already leaves its
  dynamic priority, so nice levels need not order tasks (`Effects.NiceOrder`,
  `Witnesses.WorseNiceFirst`).
- The table at `TASK_INTERACTIVE` is off by one at nice -10
  (`Interactivity.TableAgrees`).
- A yield can push an OTHER task out of the range of its dynamic priority
  (`Effects.YieldPlaces`, `Ranks.RunRanked`, `Witnesses.YieldLeavesRange`).
- The imbalance test of `load_balance` is not monotone in the load
  (`LoadBalancer.BusyDecides`, `LoadBalancer.FiveIsTooMany`).
- The fork split halves two different bases, so trials can get lost
  (`ForkTrees.SplitConserves`) and the parent can be left with none
  (`ForkTrees.SplitSpendsParent`, `Witnesses.ForkLosesTrial`); the number of
  remaining trials reported for it can be negative (`ForkTrees.ReportsNegative`).
- After a failing `get_pid` the cache can make the next call hand out a pid in
  use (`PidAllocator.StaleAfterFailure`, `PidAllocator.StaleExample`).
- The ring commits 29 records per event, not 30, and reports 150 records when it
  is empty (`SwitchRing.BurstOf29`, `SwitchRing.Ring.Copy`). Once the ring has
  wrapped, the reported number of records does not lie in order at the start of
  what is copied (`SwitchRing.ReadOrder`).

## Model

| member | source | states |
|---|---|---|
| SchedRuns.RunAccounts | usr/src/linux-2.4.18-14custom/kernel/sched.c:856-1145 | In every run of ticks, schedules, wake-ups, forks, nice changes, policy changes, yields, state assignments, reaping and moves to and from other processors, the queue invariant holds, the running task is queued, and every other task is queued exactly when it is runnable, except that a task which a granted request to stay SHORT has taken off the queues is off until something wakes it |
| SchedRuns.OverdueForever | usr/src/linux-2.4.18-14custom/kernel/sched.c:914-940 | In every run a task that has become overdue and is not reaped stays SHORT, overdue and at priority 0, and is queued only in the overdue array |
| SchedRuns.BootAccounts | usr/src/linux-2.4.18-14custom/kernel/sched.c:2108-2198 | The property the runs keep holds once init_idle has run, and when the boot task has queued a first task |
| SchedRuns.StepKeeps | usr/src/linux-2.4.18-14custom/kernel/sched.c:458-545 | Every enabled scheduler step keeps the queue invariant and keeps the running task queued |
| SchedRuns.StepAccounts | usr/src/linux-2.4.18-14custom/kernel/sched.c:1066-1078 | One step keeps queued and runnable the same thing for every task that is neither running nor taken off by a request to stay SHORT, through the window between the assignment of a state and schedule() |
| SchedRuns.StepAlike | usr/src/linux-2.4.18-14custom/kernel/sched.c:458-503 | A step leaves every task it is not about on or off the queues as it was, and all its fields but the resched mark |
| SchedInvariant.TickKeeps | usr/src/linux-2.4.18-14custom/kernel/sched.c:902-992 | scheduler_tick keeps the queue invariant: each queued task once, at its priority, in an array its policy allows |
| SchedInvariant.WakeKeeps | usr/src/linux-2.4.18-14custom/kernel/sched.c:458-503 | try_to_wake_up keeps the invariant and leaves its task runnable and queued, whether or not it was queued |
| SchedInvariant.SwitchKeeps | usr/src/linux-2.4.18-14custom/kernel/sched.c:1107-1116 | Exchanging active and expired keeps the invariant; the expired tasks may all run from the active array |
| SchedInvariant.PickQueued | usr/src/linux-2.4.18-14custom/kernel/sched.c:1128-1145 | The pick after the array switch is a queued task whenever any is queued, and the idle task otherwise: no empty list is read |
| SchedInvariant.ScheduleKeeps | usr/src/linux-2.4.18-14custom/kernel/sched.c:1066-1189 | schedule() keeps the invariant and ends with a running task that is queued or idle |
| SchedInvariant.NiceKeeps | usr/src/linux-2.4.18-14custom/kernel/sched.c:1378-1419 | set_user_nice keeps the invariant for every nice value, also those it refuses |
| SchedInvariant.YieldKeeps | usr/src/linux-2.4.18-14custom/kernel/sched.c:1874-1905 | sys_sched_yield keeps the invariant, also when it moves the task to the first occupied list |
| SchedInvariant.SetSchedulerKeeps | usr/src/linux-2.4.18-14custom/kernel/sched.c:1643-1680 | sched_setscheduler keeps the invariant for all requests; it keeps the running task queued except for exactly one kind, a granted SHORT to SHORT request for the running task, which leaves it off the queues |
| SchedInvariant.ForkKeeps | usr/src/linux-2.4.18-14custom/kernel/fork.c:719-763 | do_fork from the slice split to the wake-up of the child keeps the invariant and queues the child |
| SchedInvariant.GiveKeeps | usr/src/linux-2.4.18-14custom/kernel/sched.c:789-800 | A task that is pulled away leaves the queues consistent and every other task where it was |
| SchedInvariant.TakeKeeps | usr/src/linux-2.4.18-14custom/kernel/sched.c:797-808 | A task that is pulled here is queued and the queues stay consistent |
| SchedInvariant.ReapKeeps | usr/src/linux-2.4.18-14custom/kernel/sched.c:556-573 | Reaping a dead child changes the slice of the running task and no other task's place |
| SchedInvariant.OneRole | usr/src/linux-2.4.18-14custom/kernel/sched.c:273-287 | A task is in at most one of the four arrays |
| Ranks.RunRanked | usr/src/linux-2.4.18-14custom/kernel/sched.c:1643-1672 | In every run each real-time task has priority 99 less its sched_priority and no sleep average exceeds two seconds; in runs without a yield OTHER tasks also stay within five levels of their static priority and SHORT tasks at it |
| Ranks.RealTimeOrder | usr/src/linux-2.4.18-14custom/kernel/sched.c:1128-1145 | In every such state a queued real-time task runs before all real-time tasks of smaller sched_priority and before all other tasks |
| Ranks.TwoRequests | usr/src/linux-2.4.18-14custom/kernel/sched.c:1665-1676 | Of two queued tasks that are granted real-time policies one after the other, the one with the greater sched_priority runs first |
| Signals.NoSignalSlept | usr/src/linux-2.4.18-14custom/kernel/sched.c:1066-1071 | In every run of scheduler steps and signals no task sleeps interruptibly while a signal is pending for it |
| Effects.ScheduleLeaves | usr/src/linux-2.4.18-14custom/kernel/sched.c:1066-1078 | A task that calls schedule() runnable, or interruptible with a signal pending, is runnable and queued afterwards, and runs on if it is alone; any other one is off the queues in the state it had set |
| Effects.TickTurns | usr/src/linux-2.4.18-14custom/kernel/sched.c:912-992 | A tick within a slice moves nothing; the tick that ends one asks for a reschedule and puts the task behind its equals, with a whole slice: a round-robin task at its priority, an OTHER task at its dynamic one; a FIFO or overdue task is not charged, and an expired one only asked to leave |
| Effects.NiceSets | usr/src/linux-2.4.18-14custom/kernel/sched.c:1378-1419 | A valid nice level is the task's level afterwards, unless it is SHORT; priority and place follow, except for real-time tasks; only the running task itself is asked to reschedule; all other calls do nothing |
| Effects.NiceOrder | usr/src/linux-2.4.18-14custom/kernel/sched.c:1378-1419 | Two active OTHER tasks given different nice levels run in that order and get slices in that order, unless a call changes nothing because the level was the same before |
| Effects.OtherAdmissions | usr/src/linux-2.4.18-14custom/kernel/sched.c:1590-1637 | A request for a real-time policy is granted if and only if its priority is 1 to 99, the caller has CAP_SYS_NICE and the task is not overdue; one for OTHER if and only if its priority is 0, the caller may change the task and it is not overdue |
| Effects.Refusals | usr/src/linux-2.4.18-14custom/kernel/sched.c:1575-1612 | EINVAL is returned exactly for arguments that are out of range for the policy they ask for |
| Effects.PolicySets | usr/src/linux-2.4.18-14custom/kernel/sched.c:1643-1685 | A granted request changes the policy; a real-time task gets priority 99 less its sched_priority, any other its static one, or its dynamic one after a sleep; it goes behind its equals; only an admission to SHORT asks for a reschedule; a refused request does nothing |
| Effects.Renewed | usr/src/linux-2.4.18-14custom/kernel/sched.c:1658-1662 | A granted request of a SHORT task to stay SHORT changes the requested time and no other field, and takes it off the queues |
| Effects.YieldPlaces | usr/src/linux-2.4.18-14custom/kernel/sched.c:1874-1905 | A real-time task that yields goes behind all its equals; another one goes behind exactly one of them, or, if it has none and all others in its array are worse, behind the first of the best of those |
| Effects.WokenBehind | usr/src/linux-2.4.18-14custom/kernel/sched.c:458-503 | A woken task goes behind its equals with the credit for its sleep, or just becomes runnable if it was queued; the running task is asked to leave exactly if its number is greater |
| Effects.ForkedChild | usr/src/linux-2.4.18-14custom/kernel/fork.c:719-799 | The child has its parent's policy, nice level and overdue mark, its share of the slice, and its priority if real-time; it goes behind its equals |
| Effects.ForkPays | usr/src/linux-2.4.18-14custom/kernel/fork.c:750-760 | A parent with a single tick left pays with it at once and is asked to leave |
| Effects.ForkAddsChild | usr/src/linux-2.4.18-14custom/kernel/fork.c:719-799 | A fork outside SHORT that leaves the parent ticks adds the child to the queues and changes nothing else about them |
| Effects.ShortParent | usr/src/linux-2.4.18-14custom/kernel/sched.c:526-530 | A SHORT parent is queued anew, behind its equals and in front of its child |
| Effects.TakenBehind | usr/src/linux-2.4.18-14custom/kernel/sched.c:800-808 | A task pulled here goes behind its equals with its fields as they were, and the running task is asked to leave exactly if its number is greater |
| SchedPick.PickIsLeast | usr/src/linux-2.4.18-14custom/kernel/sched.c:1107-1145 | The pick through bitmaps and array switch is the one least runnable task by class (real-time, SHORT, OTHER, overdue), then round, then priority, then queue position |
| SchedPick.YieldGivesWay | usr/src/linux-2.4.18-14custom/kernel/sched.c:1874-1908 | After a yield the schedule() that follows switches to another task if one is left in the list of the yielding task, or, outside real-time, anywhere in its array; also when its slice is over and the arrays are switched, and whatever its state |
| SchedPick.WakePreempts | usr/src/linux-2.4.18-14custom/kernel/sched.c:458-503 | try_to_wake_up reschedules exactly when the woken task is to run before the running one, if and only if an explicit condition on the fields of the two before the call holds; it fails for overdue tasks, between SHORT and OTHER by the numbers, and when the running task's slice is over |
| TaskModel.SliceRange | usr/src/linux-2.4.18-14custom/kernel/sched.c:112-113 | For every nice level the slice lies between the minimum and the maximum, and both ends are reached |
| Interactivity.DynamicPrio | usr/src/linux-2.4.18-14custom/kernel/sched.c:302-325 | Outside SHORT the dynamic priority is the static one plus five, less five levels for each second in the sleep average, within 100 to 139: four nested divisions in one |
| Interactivity.PriorityRange | usr/src/linux-2.4.18-14custom/kernel/sched.c:292-297 | It stays within five levels of the static priority and reaches both ends |
| Interactivity.NeverLifted | usr/src/linux-2.4.18-14custom/kernel/sched.c:296-304 | Sleeping never lifts a task past another one if and only if they are more than ten static levels apart; in particular neither nice 19 past a hog at nice 0 nor nice 0 past a hog at nice -20 |
| Interactivity.SleepHelps | usr/src/linux-2.4.18-14custom/kernel/sched.c:356-368 | A longer sleep never gives a worse priority; credit is counted in full up to two seconds in all, and that gives the best priority |
| Interactivity.HogSinks | usr/src/linux-2.4.18-14custom/kernel/sched.c:974-986 | Running uses up the sleep average a tick at a time; after two seconds without sleep a task has the worst priority of its nice level |
| Interactivity.TableAgrees | usr/src/linux-2.4.18-14custom/kernel/sched.c:66-101 | TASK_INTERACTIVE agrees with the table in its comment everywhere but one level above the static priority at nice -10 |
| Interactivity.CanBeInteractive | usr/src/linux-2.4.18-14custom/kernel/sched.c:93-101 | Some sleep average makes a task interactive if and only if its nice level is at most 15 |
| Interactivity.SliceValue | usr/src/linux-2.4.18-14custom/kernel/sched.c:44-56 | The slice falls linearly from 300 ms to 10 ms over the nice levels, rounded down to ticks |
| Interactivity.SlicesFall | usr/src/linux-2.4.18-14custom/kernel/sched.c:103-113 | A better nice level never has the shorter slice |
| Interactivity.ForkHalves | usr/src/linux-2.4.18-14custom/kernel/fork.c:719-731 | A fork halves the slice, loses nothing, and gives an odd tick to the child |
| Interactivity.ForkThenExit | usr/src/linux-2.4.18-14custom/kernel/sched.c:547-564 | A child that dies before it has run gives its share back: the parent has its slice again, up to the longest one |
| Interactivity.GivenBack | usr/src/linux-2.4.18-14custom/kernel/sched.c:556-564 | The reaper gets the child's slice if that is its first, up to the longest slice, and else nothing |
| Interactivity.GivesBackItsOwn | usr/src/linux-2.4.18-14custom/kernel/sched.c:547-560 | As long as a task may give its slice back, that is what is left of the one it got at fork |
| Interactivity.HogChild | usr/src/linux-2.4.18-14custom/kernel/sched.c:565-573 | Reaping a child with a smaller sleep average leaves three parts of the own and one of the child's; any other child leaves it alone |
| Interactivity.ChildBehind | usr/src/linux-2.4.18-14custom/kernel/sched.c:531-540 | A forked child gets 95 percent of the sleep average and so never the best priority of its nice level |
| TaskModel.TickRecOk | usr/src/linux-2.4.18-14custom/kernel/sched.c:912-987 | A tick keeps the per-task consistency and only moves a task into an array that may hold it |
| TaskModel.EffectivePrioOfShort | usr/src/linux-2.4.18-14custom/kernel/sched.c:289-326 | effective_prio gives a SHORT task its static priority and an overdue one 100, although the priority of an overdue task is 0 |
| RunqueueModel.Runqueue.constructor | usr/src/linux-2.4.18-14custom/kernel/sched.c:2108-2198 | sched_init queues the boot task and init_idle takes it off again; the runqueue that is left satisfies the class invariant: bitmaps, counters and back pointers agree with the lists |
| RunqueueModel.Runqueue.Deactivate | usr/src/linux-2.4.18-14custom/kernel/sched.c:385-392 | deactivate_task takes the task off the one list it is on; all indexes still agree and nr_running drops by one |
| RunqueueModel.Runqueue.Activate | usr/src/linux-2.4.18-14custom/kernel/sched.c:328-383 | activate_task puts an unqueued task at the tail of the array of its class with its new priority |
| RunqueueModel.Runqueue.Tick | usr/src/linux-2.4.18-14custom/kernel/sched.c:907-992 | scheduler_tick on arrays, bitmaps and pointers computes the index-free step of the specification |
| RunqueueModel.Runqueue.FindNext | usr/src/linux-2.4.18-14custom/kernel/sched.c:1128-1145 | The first-set-bit choice among the four arrays returns the pick of the specification |
| RunqueueModel.Runqueue.PickNext | usr/src/linux-2.4.18-14custom/kernel/sched.c:1084-1145 | For a runqueue that is not empty, the array switch and the choice return the least runnable task of the state before the switch |
| RunqueueModel.Runqueue.Schedule | usr/src/linux-2.4.18-14custom/kernel/sched.c:1066-1189 | schedule() refines the specification step in all states a caller can produce |
| RunqueueModel.Runqueue.TryToWakeUp | usr/src/linux-2.4.18-14custom/kernel/sched.c:458-503 | try_to_wake_up refines the specification and reports success exactly when its task was off the queues; a task with a stray p->array becomes runnable, is reported as not woken and stays off the queues |
| RunqueueModel.Runqueue.SetUserNice | usr/src/linux-2.4.18-14custom/kernel/sched.c:1378-1419 | set_user_nice refines the specification |
| RunqueueModel.Runqueue.SetScheduler | usr/src/linux-2.4.18-14custom/kernel/sched.c:1565-1690 | sched_setscheduler refines the specification and returns its verdict; the class invariant survives if and only if the request does not turn an unqueued OTHER task into SHORT, in which case its p->array is stray and nothing else is wrong |
| RunqueueModel.Runqueue.Yield | usr/src/linux-2.4.18-14custom/kernel/sched.c:1874-1905 | sys_sched_yield relinks the running task where the specification says, with the bitmap cleared and set around it |
| RunqueueModel.Runqueue.SplitSlices | usr/src/linux-2.4.18-14custom/kernel/fork.c:724-747 | The slice and trial split writes both tasks and queues neither |
| RunqueueModel.Runqueue.WakeForked | usr/src/linux-2.4.18-14custom/kernel/sched.c:510-545 | wake_up_forked_process requeues a SHORT parent and then queues the child |
| RunqueueModel.Runqueue.Fork | usr/src/linux-2.4.18-14custom/kernel/fork.c:719-799 | Split, the tick of a parent left without a slice, and the wake-up of the child, as one step of the specification |
| RunqueueModel.EraseExact | usr/src/linux-2.4.18-14custom/kernel/sched.c:273-279 | Unlinking a task from the list its p->array and prio name removes it from the whole runqueue |
| RunqueueModel.SoundSwitch | usr/src/linux-2.4.18-14custom/kernel/sched.c:1107-1116 | The pointer swap moves no task: every p->array stays valid although the roles change |
| RunqueueModel.CountsTasks | usr/src/linux-2.4.18-14custom/kernel/sched.c:1084 | nr_running is zero exactly when no list holds a task |
| Entities.DequeuedIndexed | usr/src/linux-2.4.18-14custom/kernel/sched.c:273-279 | dequeue_task keeps bit k set exactly when list k is not empty, and nr_active the number of queued tasks |
| Entities.EnqueuedIndexed | usr/src/linux-2.4.18-14custom/kernel/sched.c:281-287 | enqueue_task keeps the same agreement |
| ShortBudget.TickSpendsOne | usr/src/linux-2.4.18-14custom/kernel/sched.c:914-940 | A tick uses one tick of the remaining budget of a SHORT task, which becomes overdue with its last one and not before |
| ShortBudget.OverdueAfterBudget | usr/src/linux-2.4.18-14custom/kernel/sched.c:914-940 | n ticks make a SHORT task overdue if and only if n is its whole budget |
| ShortBudget.ShortAdmission | usr/src/linux-2.4.18-14custom/kernel/sched.c:1575-1637 | A request turns an OTHER task SHORT if and only if the caller may change it, 1 to 5000 ms and 1 to 50 trials are asked for and the static priority is 0; real-time tasks never get in, overdue tasks are refused any change, and a SHORT task that keeps its policy is not checked for its new time |
| ShortBudget.AdmittedBudget | usr/src/linux-2.4.18-14custom/kernel/sched.c:1650-1656 | An admission for T = floor(r*HZ/1000) >= 1 ticks and N trials is worth exactly the sum of floor(T/k) for k up to min(N,T) ticks; T = 0 grants a zero slice, which wraps and is worth 2^32 |
| ShortBudget.LaterSlicesValue | usr/src/linux-2.4.18-14custom/kernel/sched.c:118 | The slices still to come, through nested floor divisions and both ways the trials can end |
| ForkTrees.ForkTrials | usr/src/linux-2.4.18-14custom/kernel/fork.c:737-753 | A fork never gives parent and child together more trials than the parent had, also when the parent takes a tick at once |
| ForkTrees.SplitConserves | usr/src/linux-2.4.18-14custom/kernel/fork.c:737-747 | The split loses no trial if and only if none was used, at most one was left, or one was used and an odd number is left |
| ForkTrees.SplitSpendsParent | usr/src/linux-2.4.18-14custom/kernel/fork.c:737-747 | The parent is left without a trial if and only if it had fewer than twice the number of its current trial, and then its current slice is its last |
| ForkTrees.ReportsNegative | usr/src/linux-2.4.18-14custom/kernel/hw2_syscalls.c:52-66 | sys_remaining_trials reports a negative number for a forking parent if and only if it had used more than half of its trials |
| ForkTrees.TrialsNeverGrow | usr/src/linux-2.4.18-14custom/kernel/fork.c:737-753 | Over any run of forks, ticks, reaps and deaths of parents the trials left in a family never increase |
| ForkTrees.SliceLedger | usr/src/linux-2.4.18-14custom/kernel/fork.c:719-763 | Over any such run every slice stays positive, and slices plus ticks charged stay within initial slices plus slices granted plus forks made with one tick left, with equality when nothing is reaped |
| ForkTrees.ReapSlice | usr/src/linux-2.4.18-14custom/kernel/sched.c:556-573 | sched_exit never gives the parent more than parent and child had |
| ForkTrees.AdmittedWithinShare | usr/src/linux-2.4.18-14custom/kernel/sched.c:1650-1656 | An admitted task starts within the share of its request if and only if requested_time * HZ >= 1000 |
| ForkTrees.RemainingWithinRequest | usr/src/linux-2.4.18-14custom/kernel/hw2_syscalls.c:34-48 | For one task: remaining_time * (current_trial + 1) <= requested_time, through three floor divisions |
| ForkTrees.RemainingTimeBound | usr/src/linux-2.4.18-14custom/kernel/hw2_syscalls.c:34-48 | The same bound for every SHORT task after any run of ticks, forks and deaths of parents |
| ShortLiveness.ShortExhaustion | usr/src/linux-2.4.18-14custom/kernel/sched.c:912-943 | Left to itself, a system without real-time tasks runs a SHORT task for exactly the sum of all budgets in ticks; then every SHORT task is overdue, and if an OTHER task is queued then an OTHER task runs and not the idle task |
| ShortLiveness.TurnAfterWait | usr/src/linux-2.4.18-14custom/kernel/sched.c:930-937 | A SHORT task at position i of the first SHORT list becomes current after exactly the slices of the i tasks ahead of it, and at no earlier tick |
| RealTimeTurns.EveryRobin | usr/src/linux-2.4.18-14custom/kernel/sched.c:955-971 | No round-robin task of the best priority starves: at any time each becomes current again within the slices that all of them may have |
| RealTimeTurns.RobinTurn | usr/src/linux-2.4.18-14custom/kernel/sched.c:955-971 | A task behind i round-robin tasks in the first real-time list becomes current after exactly their slices, and at no earlier tick |
| RealTimeTurns.NextRobin | usr/src/linux-2.4.18-14custom/kernel/sched.c:959-968 | When the slice of a round-robin task is over the task behind it runs |
| RealTimeTurns.NobodyElse | usr/src/linux-2.4.18-14custom/kernel/sched.c:955-971 | As long as the first real-time list is left to itself only its tasks run, and a FIFO task at its head runs alone |
| RealTimeTurns.UrgentBeat | usr/src/linux-2.4.18-14custom/kernel/sched.c:955-971 | A tick and its schedule() leave the first real-time list alone, or rotate it when the slice of its round-robin head ends |
| OtherTurns.EveryTurn | usr/src/linux-2.4.18-14custom/kernel/sched.c:966-992 | No OTHER task starves when spent tasks expire: at any time each of them becomes current again within twice the slices that all of them may have |
| OtherTurns.OtherTurn | usr/src/linux-2.4.18-14custom/kernel/sched.c:1128-1145 | An OTHER task at position i of the active array, counted over all its lists, becomes current after exactly the slices of the i tasks ahead of it, and at no earlier tick |
| OtherTurns.EpochEnds | usr/src/linux-2.4.18-14custom/kernel/sched.c:1107-1116 | After exactly the slices of all active tasks the arrays are switched: all tasks are active again and none is expired |
| OtherTurns.BeatLines | usr/src/linux-2.4.18-14custom/kernel/sched.c:974-992 | A tick and its schedule() shorten the slice of the running task, or move it from the line to the expired tasks, or start the next round with it |
| ShortLiveness.TopAfterRound | usr/src/linux-2.4.18-14custom/kernel/sched.c:914-940 | A round leaves the first SHORT list alone, moves its head to the tail, or drops it to overdue, for lists of any length |
| WaitQueues.WaitQueue.Add | usr/src/linux-2.4.18-14custom/kernel/fork.c:43-51 | add_wait_queue puts a non-exclusive entry in front and keeps non-exclusive entries before exclusive ones |
| WaitQueues.WaitQueue.AddExclusive | usr/src/linux-2.4.18-14custom/kernel/fork.c:53-61 | add_wait_queue_exclusive puts an exclusive entry at the end and keeps the order |
| WaitQueues.WaitQueue.Take | usr/src/linux-2.4.18-14custom/kernel/fork.c:63-70 | remove_wait_queue takes out that entry, keeps all others in order and keeps the order of kinds |
| WaitQueues.WaitQueue.WakeUp | usr/src/linux-2.4.18-14custom/kernel/sched.c:1230-1245 | The walk of __wake_up_common over a live runqueue wakes the tasks of exactly the entries up to the n-th successful exclusive wake-up |
| WaitQueues.WakeUpReach | usr/src/linux-2.4.18-14custom/kernel/sched.c:1222-1245 | With n > 0 every non-exclusive entry is attempted and exactly min(n, wakeable) exclusive tasks are activated; with n = 0 every entry is attempted |
| WaitQueues.WakeUpAwakens | usr/src/linux-2.4.18-14custom/kernel/sched.c:1230-1245 | Afterwards exactly the right tasks have been woken: the eligible ones with a non-exclusive entry, those with an exclusive entry that fewer than n wakeable ones precede, or all for n = 0, are runnable and queued, and every other task is as it was |
| WaitQueues.WokenSeen | usr/src/linux-2.4.18-14custom/kernel/sched.c:1230-1245 | A walk changes state and queueing of exactly the eligible tasks it reaches, whatever else wake-ups do to priorities and reschedule marks |
| Completions.NoCompletionLost | usr/src/linux-2.4.18-14custom/kernel/sched.c:1278-1311 | In every interleaving of waits, stray wake-ups, departures and returns of waiters with the single attempts of complete(), returned waits are completions less `done`, and while a waiter sleeps at least `done` waiters are awake, or all but one of them while complete() is still walking |
| Completions.QuietMeansConsumed | usr/src/linux-2.4.18-14custom/kernel/sched.c:1278-1311 | When no complete() is under way and every waiter is off the runqueue, nobody waits or every completion has been consumed |
| Completions.SomeoneReturns | usr/src/linux-2.4.18-14custom/kernel/sched.c:1300-1309 | While something is done and someone waits, the rest of the walk under way and the steps of one waiter alone make its wait return |
| Completions.CompleteWakes | usr/src/linux-2.4.18-14custom/kernel/sched.c:1278-1286 | complete() with nothing in between does what the walk of the wait queue does as a whole, and makes one more waiter awake, or all, also when waiters sit between setting their state and schedule() |
| Completions.TryKeeps | usr/src/linux-2.4.18-14custom/kernel/sched.c:1230-1246 | One attempt of the walk leaves its waiter awake, and one that ends the walk early has woken a sleeping waiter |
| Completions.TrySeen | usr/src/linux-2.4.18-14custom/kernel/sched.c:1230-1246 | try_to_wake_up on one entry is, as wake-ups see it, the attempt step of the protocol |
| Completions.StepKeeps | usr/src/linux-2.4.18-14custom/kernel/sched.c:1288-1311 | Every single step keeps the invariant behind these results |
| Completions.Completion.Complete | usr/src/linux-2.4.18-14custom/kernel/sched.c:1278-1286 | complete() counts one up and performs the wake-up on the real runqueue |
| Completions.SleepSeen | usr/src/linux-2.4.18-14custom/kernel/sched.c:1300-1302 | Setting the state of the running task is, as wake-ups see it, the sleep step of the protocol |
| Completions.ScheduleSeen | usr/src/linux-2.4.18-14custom/kernel/sched.c:1303-1304 | schedule() is, as wake-ups see it, the switch step of the task that called it, and comes back in a task that is queued |
| PidAllocator.Allocator.GetPid | usr/src/linux-2.4.18-14custom/kernel/fork.c:88-142 | get_pid with its gotos ends, and returns the first free id in cyclic order and leaves next_safe at the least id in use above it, or fails with every id from 300 on in use but the starting one |
| PidAllocator.FreshPid | usr/src/linux-2.4.18-14custom/kernel/fork.c:98-130 | A pid handed out is none of the four ids of any linked task, on the scanning path and on the path that skips the scan |
| PidAllocator.PidsStayUnique | usr/src/linux-2.4.18-14custom/kernel/fork.c:88-142 | In every run of forks, exits and group changes without a failing call, no id in use lies strictly between last_pid and next_safe, live pids differ, and the next pid is free |
| PidAllocator.StaleAfterFailure | usr/src/linux-2.4.18-14custom/kernel/fork.c:112-122 | After a failing call the cache is sound if and only if next_safe is last_pid + 1; otherwise the next call returns an id in use |
| PidAllocator.StaleExample | usr/src/linux-2.4.18-14custom/kernel/fork.c:112-122 | 8117 tasks that hold all ids from 300 on: the call fails and the next one returns 301, which is in use |
| PidAllocator.RoomForAll | usr/src/linux-2.4.18-14custom/kernel/fork.c:97-142 | With at most 8116 linked tasks the call ends and does not fail |
| PidAllocator.EveryCallEnds | usr/src/linux-2.4.18-14custom/kernel/fork.c:88-142 | In every run from boot, with and without failing calls and for any number of tasks, the state is one in which get_pid ends |
| PidHashes.PidHash.Hash | usr/src/linux-2.4.18-14custom/include/linux/sched.h:658-666 | hash_pid puts the task in front of its chain; every pprev again designates the link that points at its task |
| PidHashes.PidHash.Unhash | usr/src/linux-2.4.18-14custom/include/linux/sched.h:668-673 | unhash_pid takes exactly that task out of its chain, first, last or in the middle |
| PidHashes.PidHash.Find | usr/src/linux-2.4.18-14custom/include/linux/sched.h:675-683 | find_task_by_pid ends and returns a hashed task with that pid, or NULL if and only if there is none; the one with that pid if pids are unique |
| PidHashes.SlotCut | usr/src/linux-2.4.18-14custom/include/linux/sched.h:668-673 | A chain without one member holds the other members, once each, in their order |
| Families.Family.constructor | usr/src/linux-2.4.18-14custom/include/linux/sched.h:580-600 | The boot task alone, its own parent, satisfies the class invariant |
| Families.Family.Fork | usr/src/linux-2.4.18-14custom/kernel/fork.c:778-792 | A new task gets the forking task as original parent and parent, or the latter's under CLONE_PARENT, or only as parent when traced; it becomes the youngest child there, and all links stay consistent |
| Families.Family.SetLinks | usr/src/linux-2.4.18-14custom/include/linux/sched.h:987-995 | SET_LINKS puts the task at the end of the task list and in front of its parent's children, all links consistent |
| Families.Family.RemoveLinks | usr/src/linux-2.4.18-14custom/include/linux/sched.h:976-985 | REMOVE_LINKS takes the task out of both lists and keeps all other links consistent |
| Families.Family.ForgetOriginalParent | usr/src/linux-2.4.18-14custom/kernel/exit.c:205-240 | Every child of the dying task gets the first thread of the group that is not exiting as original parent, or the child reaper, and keeps its slice from its reaper |
| Families.Family.HandOver | usr/src/linux-2.4.18-14custom/kernel/exit.c:452-485 | The loop ends with the dying task childless, and every other task's children are those it adopted, last handed over first, before those it had; between iterations the new head's younger-sibling pointer is stale |
| Families.Family.ExitNotify | usr/src/linux-2.4.18-14custom/kernel/exit.c:394-485 | Both together: no listed task has the dying task as original parent, and each former child is in the chain of its original parent, consistent in all links |
| Families.Heirs | usr/src/linux-2.4.18-14custom/kernel/exit.c:205-240 | The new parent is the first other thread of the group that is not exiting, or the child reaper if there is none or a task would become its own parent; the heirs never get the rest of a child's first slice; all other tasks are left alone |
| Families.CameReversed | usr/src/linux-2.4.18-14custom/kernel/exit.c:452-485 | Children handed over to one parent come in the opposite order, behind each other's back |
| Families.AdoptStep | usr/src/linux-2.4.18-14custom/kernel/exit.c:454-466 | One iteration hands one child over and repairs its stale pointer, while the rest of the chain stays loose in its head only |
| Families.CutConsistent | usr/src/linux-2.4.18-14custom/include/linux/sched.h:976-985 | Unlinking a child with any combination of neighbours keeps every chain consistent |
| Families.SiblingsInverse | usr/src/linux-2.4.18-14custom/include/linux/sched.h:976-995 | In consistent links the two sibling pointers are inverse to each other, siblings share their parent, and the parent points at the child without a younger sibling |
| Families.ForgottenFree | usr/src/linux-2.4.18-14custom/kernel/exit.c:222-238 | After forget_original_parent no listed task has the dying task as original parent |
| LoadBalancer.Balancer.FindBusiest | usr/src/linux-2.4.18-14custom/kernel/sched.c:700-717 | The search returns the first other runqueue that has been longest, by the smaller of its length now and last time, or now for an idle processor, if that is more than one, and remembers all lengths |
| LoadBalancer.BusyDecides | usr/src/linux-2.4.18-14custom/kernel/sched.c:696-736 | By lengths and saved lengths alone: a busy processor pulls from the busiest other runqueue if and only if that has had enough tasks, from twice its own number on but for one odd number, and then at most half of what it had more, both now and last time |
| LoadBalancer.FiveIsTooMany | usr/src/linux-2.4.18-14custom/kernel/sched.c:719-724 | With two tasks of its own a busy processor pulls from a runqueue of four tasks and not from one of five |
| LoadBalancer.CandidateOrder | usr/src/linux-2.4.18-14custom/kernel/sched.c:743-795 | The search takes expired tasks before active ones, better priorities first, and a list from its tail on |
| LoadBalancer.Balancer.Balance | usr/src/linux-2.4.18-14custom/kernel/sched.c:667-816 | load_balance pulls from the busiest runqueue exactly when its lengths now and last time warrant it, or now for an idle processor, moves the first candidates up to half the difference, or one, and never leaves the own runqueue longer than the one it pulled from; both keep the full class invariant, no other runqueue changes |
| LoadBalancer.Balancer.Schedule | usr/src/linux-2.4.18-14custom/kernel/sched.c:1066-1189 | schedule() with the pull in it: only a processor with nothing left to run pulls; it takes the first candidate of the first of the longest other runqueues if that has two tasks and a candidate, and runs it at once; when nothing is pulled it is the specification step |
| LoadBalancer.Pull | usr/src/linux-2.4.18-14custom/kernel/sched.c:743-815 | The goto search ends and moves the first candidates in its order, expired before active, by priority, from tail to head; no task is lost, copied or changed, and both nr_running agree |
| LoadBalancer.CandidateIff | usr/src/linux-2.4.18-14custom/kernel/sched.c:776-791 | The candidates are exactly the tasks waiting in the active or expired array that do not run, are not cache-hot and may run here; none is SHORT or overdue |
| LoadBalancer.MoveTask | usr/src/linux-2.4.18-14custom/kernel/sched.c:797-808 | dequeue_task and enqueue_task across two runqueues keep both class invariants |
| LoadBalancer.NeverLonger | usr/src/linux-2.4.18-14custom/kernel/sched.c:719-736 | Moving no more than the imbalance cannot turn it around |
| SwitchRing.Ring.RecordSwitch | usr/src/linux-2.4.18-14custom/kernel/sched.c:188-195 | record_switch writes only the scratch slot and rearms the counter for created and ended tasks |
| SwitchRing.Ring.CreateRecord | usr/src/linux-2.4.18-14custom/kernel/sched.c:197-213 | create_record appends to the log if and only if the counter is still positive, and the window holds the last min(149, committed) records in order |
| SwitchRing.Ring.Copy | usr/src/linux-2.4.18-14custom/kernel/sched.c:216-225 | The reported count is exact if and only if something has been committed; an empty ring reports 150; the records copied are in order from the start of the array only if the window starts there |
| SwitchRing.ReadOrder | usr/src/linux-2.4.18-14custom/kernel/sched.c:216-225 | A reader finds the records in order if the window starts with the array, and else the newest ones first, then the scratch slot, then the older ones |
| SwitchRing.CommitScratch | usr/src/linux-2.4.18-14custom/kernel/sched.c:186-212 | Committing the scratch slot appends to the window and drops the oldest record of a full one |
| SwitchRing.CommitsBounded | usr/src/linux-2.4.18-14custom/kernel/sched.c:193-207 | In every run of up to 2^31 switches at most 29 records are committed per created or ended task |
| SwitchRing.BurstOf29 | usr/src/linux-2.4.18-14custom/kernel/sched.c:193-207 | After such an event exactly the next 29 switches are committed |
| SwitchRing.CounterWraps | usr/src/linux-2.4.18-14custom/kernel/sched.c:207 | One switch beyond 2^31 the counter wraps and a record is committed without any event |
| FileTables.CountOpenFiles | usr/src/linux-2.4.18-14custom/kernel/fork.c:429-440 | Every open descriptor lies below the result, which is a multiple of the word size, fits the table, and is tight beyond the first word |
| FileTables.CopyFiles | usr/src/linux-2.4.18-14custom/kernel/fork.c:442-535 | copy_files shares, fails without side effects, or gives the child the parent's entries below the boundary, NULL above, the same open set, and one reference per copied entry |
| FileTables.CloseFiles | usr/src/linux-2.4.18-14custom/kernel/exit.c:242-264 | close_files drops exactly one reference per open entry, clears those entries and leaves all others |
| FileTables.PutFiles | usr/src/linux-2.4.18-14custom/kernel/exit.c:266-282 | The table is closed when, and only when, its last user leaves |
| FileTables.ForkExitNeutral | usr/src/linux-2.4.18-14custom/kernel/fork.c:487-535 | Copying at fork and closing at exit leave every reference count as it was if and only if every file in the copied part had its open bit set |
| FileTables.ForkThenExit | usr/src/linux-2.4.18-14custom/kernel/fork.c:442-535 | The same of the two calls one after the other, which establish what it needs; a failing fork changes no count |
| Witnesses.OverdueDisturbs | usr/src/linux-2.4.18-14custom/kernel/sched.c:458-503 | An overdue task that wakes up makes a running OTHER task give way, before which it is not to run |
| Witnesses.ForkLosesTrial | usr/src/linux-2.4.18-14custom/kernel/fork.c:737-747 | A SHORT task that forks with two of four trials left keeps none, and its child has one |
| Witnesses.WorseNiceFirst | usr/src/linux-2.4.18-14custom/kernel/sched.c:1378-1392 | Two set_user_nice calls to 0 and 1 after which the task at nice 1 runs first, because the first call changed nothing |
| Witnesses.RaisedWaits | usr/src/linux-2.4.18-14custom/kernel/sched.c:1404-1415 | A waiting task raised from nice 19 to -20 is to run first, and the running one is not asked to leave |
| Witnesses.YieldLeavesRange | usr/src/linux-2.4.18-14custom/kernel/sched.c:1885-1903 | A task at nice 0 that yields to one at nice 19 takes over its priority |
| Witnesses.SleeperIsAdmitted | usr/src/linux-2.4.18-14custom/kernel/sched.c:1643-1656 | A sleeping OTHER task is granted SHORT while it is off the queues |
| Witnesses.LoseSleeper | usr/src/linux-2.4.18-14custom/kernel/sched.c:1650-1656 | That task is then woken and lost: runnable, reported as not woken, in no queue |
| Witnesses.RunnerIsTakenOff | usr/src/linux-2.4.18-14custom/kernel/sched.c:1658-1662 | A running SHORT task is granted 7000 ms through sched_setparam and runs on off the queues |
| Witnesses.TinyRequestLastsForever | usr/src/linux-2.4.18-14custom/kernel/sched.c:1650-1656 | A request for 5 ms at 100 Hz is granted a slice of zero and is worth 2^32 ticks |

## Left out

- Locks, interrupts, inter-processor messages and the migration thread: each lock-held region is one step, except for the walk of `complete()`. In particular the lock that `exit_notify` drops between two children to signal a process group, the one `load_balance` may drop to take two locks in order, and the time between `get_pid` and the linking of the new task are taken as atomic.
- Debug printing, statistics other than `nr_running` and `nr_active` (`nr_switches`, `nr_uninterruptible`, kernel statistics), `show_task` and the affinity and priority-range system calls.
- Address spaces, register switching, the delivery of signals, process-group signalling and resource usage.
- Priority arrays are values embedded in the runqueue and `p->array`, `active` and `expired` are indexes into it, as the C arrays are embedded; two runqueues therefore never share an array. The links of `run_list` are modelled by sequences, not by nodes.
- The scheduling fields of a task are one record-valued field that is assigned at once where the C code assigns several fields in a row; no other code runs in between.
- `dequeue_task` and `enqueue_task` are functions on the array value; the methods assign their result.
- The family links and file reference counts are one memory indexed by address each, not separate objects; aliasing is by address.
- The outcome of the interactivity and starvation test of the tick is an input of the steps; the interactivity half of it is Interactivity.TableAgrees. OtherTurns is about the outcome that every spent task expires; nothing is claimed about starvation behind interactive tasks.
- Signals.NoSignalSlept: takes the sending of a signal as one event that also wakes its task; kernel/signal.c is not part of this model.
- RunqueueModel.Runqueue.TryToWakeUp: does not model the migration of a sleeping task to the waking processor, because the wake-ups modelled are not synchronous. When its reschedule is the right one is SchedPick.WakePreempts.
- RunqueueModel.Runqueue.SetScheduler: ends at the requeue, before the call of `schedule()` and the return to the caller.
- RunqueueModel.Runqueue.Schedule: requires a running task that is runnable or queued, which is what SchedRuns.RunAccounts shows of every run; it is the case without a pull, and with it LoadBalancer.Balancer.Schedule; both end at the switch, without the restart for a pending reschedule.
- SchedRuns.RunAccounts: two granted policy changes are not steps of its runs, because they corrupt the runqueue: SHORT to SHORT of the running task and OTHER to SHORT of a task off the queues. SchedInvariant.SetSchedulerKeeps, RunqueueModel.Runqueue.SetScheduler and RunqueueModel.Runqueue.TryToWakeUp say what they do instead.
- RunqueueModel.Runqueue.Fork: requires a parent that is not the boot task; the threads forked by the boot task itself are not modelled, and runs start from SchedRuns.BootAccounts or any other state in which their property holds.
- ForkTrees.SliceLedger: assumes slices and requests below 2^31 ticks, which no granted slice exceeds but which `sched_setparam` does not check.
- ForkTrees.RemainingTimeBound: excludes reaping, which may raise a slice above its share, and changes of `requested_time`.
- WaitQueues.WaitQueue.WakeUp: takes `nr_exclusive` as an unbounded integer and all tasks on one runqueue.
- Completions.NoCompletionLost: takes `done` as an unbounded counter, and leaves out what tasks do that are not waiting.
- PidAllocator.Allocator.GetPid: requires that the scan can end. Every state that a run from boot reaches meets this (PidAllocator.EveryCallEnds); in the others, with last_pid below 300 and all later ids in use, the scan would never end (PidAllocator.ScanForever).
- SwitchRing.CommitsBounded: is limited to 2^31 switches, because one more makes the counter wrap (SwitchRing.CounterWraps).
- FileTables.CopyFiles: takes the results of growing the bitmaps and the table as parameters; fs/file.c is not part of this model, nor is what closing a file does beyond its reference count.
- Families.Family.ExitNotify: models the links only, not the signals sent to parents and orphaned groups.
- The observer `sys_is_SHORT`: it returns one field.
