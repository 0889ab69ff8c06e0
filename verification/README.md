# eChronos kernel components in Dafny

A model of the kernel components from which the eChronos real-time operating system builds its variants, with proofs of
what those components promise: which task runs under interrupts, how mutexes, semaphores, signals and message queues
behave between tasks, when timers expire, and what the configuration step computes.  `dafny verify dfyconfig.toml`
checks the whole project.

## How it is modelled

The code is C templates merged into one RTOS module per variant.  Three state machines stand for what happens between
tasks and interrupts; classes over arrays, or objects, stand for the code that works in place.

* `preemption.dfy` is Kochab and Phact under interrupts on ppce500.  A step is one access to state that interrupts
  share, or one stretch of code with interrupts disabled; while interrupts are enabled, an interrupt that raises any
  events, and perhaps a tick, can come between any two steps.  The read-modify-write of the interrupt word at
  `components/interrupt-event-ppce500/implementation.c:76` is a load and a store.  A context switch is one step.
  `preemption_returns.dfy` says where control goes in its runs, and `preemption_accounts.dfy` what becomes of each event
  and tick.
* `kernel.dfy`, `kernel_safety.dfy` and `kernel_theorems.dfy` are the kernel objects of Kochab and Phact between tasks.
  A step is what one task does from a kernel call, or from the return of `yield()` inside one, to the next `yield()` or
  the end of the call; interrupt events and timers send signals at any time.  Any runnable task may make the next step,
  which covers every choice of the scheduler.  Where the choice matters, in `kernel_schedule.dfy`, `phact_ceiling.dfy`
  and `phact_contention.dfy`, the scheduled task makes it; in particular every run that is shown to exist in Kochab or
  Phact is such a run.  The retry loops of lock and wait are program points, because other tasks run in the middle of
  them.
  `kernel_accounts.dfy` tells every part of the state from the actions of the run alone: what is pending, blocked,
  held, registered and counted.  `kernel_objects.dfy` ties the code that runs in place, on the kernel's arrays, to the
  steps of this machine.
* `joint_machine.dfy` runs these two machines side by side: a kernel section of the first, however interrupted, carries
  out one step of the second.  The second then only ever makes steps of scheduled tasks, which carries its theorems over
  to systems under interrupts.  `kernel_sections.dfy` shows that every step of the second has such a section.
* `message_queue_protocol.dfy` is the same for message queues in Rigel, whose tasks switch only where they yield.  The
  number of messages at which a get wakes waiters is a parameter; the code uses the number of queues less one.  Any
  runnable task may make the next step, also in runs shown to exist, since a task of Rigel may call `yield()` whenever
  it runs and so pass its turn on.  The machine is the default build without internal assertions; with them, the runs
  that leave a putter waiting at a queue that is not full end at the assertion at
  `components/message-queue/implementation.c:157`, but for queues of length one, which pass it.  `message_queue.dfy` is
  the ring buffer in place, and `message_queue_accounts.dfy` the accounts of the machine's runs.
* `sched.dfy` is the scheduler the first two machines share, either the inheritance scheduler of
  `sched_prio_inherit.dfy` or the ceiling scheduler of `sched_prio_ceiling.dfy`.
* `timer.dfy`, `interrupt_event.dfy` and `sched_rr.dfy` are the timers, the armv7m interrupt events and the round-robin
  scheduler; `dependencies.dfy`, `typedefs.dfy`, `signal_numbering.dfy` and `ceiling_config.dfy` are algorithms of the
  configuration step.

Conventions: ids are 8 bits wide with NONE = 255, so a system has at most 255 tasks, mutexes, semaphores, queues and
timers, and their number is otherwise arbitrary.  Signal sets and interrupt words are sets of bit positions.  The tick
count is unbounded, and the code sees its low 32 or 16 bits.  A failed assertion or fatal error ends a run.

Assumptions: every interrupt handler that raises an event or counts a tick goes through the scheduling wrapper, and a
raise of an event is not itself interrupted by another raise.  A task calls the kernel only from task code.

## What the code does not do

* A raise between the load and the store of the interrupt word on ppce500 can be lost (`SomeRunLosesARaise`): raises get
  lost in exactly those runs in which a store writes a word that lacks one raised since the load
  (`RaisesLostIffStoreErases`).
* The wake-up test of `message_queue_try_get` compares with the number of queues, not with the queue's own length.  With
  two tasks or more, putters are woken as they should be only at queues whose length is the number of queues
  (`WakeupsNeedThreshold`), and at shorter queues a putter and a getter can end up waiting for each other, neither of
  them woken (`MutualWaitNeedsThreshold`).
* The internal assertion at `components/message-queue/implementation.c:159` can fail, since any signal makes a registered
  waiter runnable (`WaiterMayBeRunnable`); the one at line 157 holds exactly at queues whose
  length is the number of queues or one, or with a single task (`AssertionNeedsThreshold`).
* With no task runnable the ceiling scheduler returns the entry of the last index, not TASK_ID_NONE.
* When the walk of the inheritance scheduler meets a chain of blocked tasks without end, behind chains that all end in
  TASK_ID_NONE, it does not return (`WalkLoops`, `AssertsIffWalkLoops`); a cycle behind a task whose chain ends in a
  runnable one is not met.  A step closes a cycle exactly if it blocks its task on a holder whose chain leads
  back to it (`StepStaysAcyclicIff`, `AcyclicIffNoStepCloses`), and when scheduled tasks make the steps the walk then
  meets the cycle at once (`ReturnsIffNoStepCloses`); opposite lock orders lead there (`OppositeOrdersDeadlock`).
* Ceilings alone prevent contention exactly in configurations without a mutex that two tasks may lock
  (`ContentionIffShared`); in all others one task that waits while it holds a mutex is enough to make another find it
  taken (`SharedContends`), and tasks that wait holding none prevent that (`CeilingsPreventContention`).
* A mutex configured with the priority of a task comes after that task in the queue, so the assertion in
  `sched_set_mutex_locked_by` fails when the task locks it (`IndicesFollowPriorities`).
* Timeouts whose deadline does not fit the 32-bit tick counter are over at once (`DeadlineTest`).
* Documentation and code disagree, and the model follows the code: unlocking a mutex wakes all its waiters, not the one
  of highest priority (`components/sched-prio-ceiling/docs.md:42`); a full queue has
  `available == queue_length`, which the comment at `components/message-queue/implementation.c:26` excludes.

## Model

| member | source | states |
|---|---|---|
| Preemption.RunningTaskIsScheduled | components/context-switch-preempt-ppce500/implementation.c:201-322 | In every state of every run, whatever interrupts come when: with interrupts and preemption enabled no preemption is pending, no raised event or tick waits, and the current task is the one sched_get_next picks for the present scheduler state. |
| Preemption.RunKeepsInv | components/context-switch-preempt-ppce500/implementation.c:201-322 | Every state of every run from start() on satisfies the invariant behind the scheduling requirement. |
| Preemption.StepKeepsInv | components/context-switch-preempt-ppce500/implementation.c:201-322 | Each step of task, scheduling loop, context switch or interrupt keeps that invariant. |
| Preemption.IrqKeepsInv | components/context-switch-preempt-ppce500/implementation.c:293-322 | An interrupt handler and its wrapper keep it at every point at which interrupts are enabled. |
| Preemption.ProcessKeepsInv | components/interrupt-event-ppce500/implementation.c:47-86 | So does clearing the pending preemption and copying the events in one step with interrupts disabled. |
| Preemption.PickKeepsInv | components/context-switch-preempt-ppce500/implementation.c:259-282 | So does the choice of the next task and the test of preempt_pending that follows it, and the loop goes to sleep only with no event raised and no tick pending. |
| Preemption.SwitchKeepsInv | components/context-switch-preempt-ppce500/implementation.c:327-400 | So does the context switch: the task left has saved what it was switched away by, with the preemption flag yield_common was asked for, no other saved context changes, and the chosen task is current. |
| Preemption.DeliverKeepsInv | components/interrupt-event/implementation.c:25-55 | So do the signals that handled events and expired timers send. |
| Preemption.AssertionsHold | components/context-switch-preempt-ppce500/implementation.c:204-281 | In every state of every run the interrupt and preemption flags are as the internal assertions demand in kernel calls, in task code, in the scheduling loop and at its return. |
| Preemption.KernelSectionsAreScheduled | components/context-switch-preempt-ppce500/implementation.c:201-257 | A kernel section, entered by disabling preemption, by the return of yield() or by the first switch to a task, belongs to the task the scheduler picks up to that task's first own action, whatever interrupts come; so kernel steps are made by scheduled tasks. |
| Preemption.FallsAsleepIdle | components/interrupt-event-ppce500/implementation.c:88-98 | In every run the system goes to sleep only with no event raised, no tick pending and no task for the scheduler to run. |
| PreemptionReturns.SleepersMissNothing | components/interrupt-event-ppce500/implementation.c:88-98 | The events and ticks that wait while the system sleeps are exactly those that interrupts brought since it fell asleep. |
| PreemptionReturns.SwitchedTasksComeBack | components/context-switch-preempt-ppce500/implementation.c:327-400 | In every run a task switched away in yield_common comes back, when it next is current, to the end of yield_common with preemption as its own argument asked for, and one switched away by an interrupt to its own code with interrupts and preemption enabled; its saved context does not change meanwhile. |
| PreemptionReturns.ControlReturns | components/context-switch-preempt-ppce500/implementation.c:201-257 | In every run a task next executes after preempt_enable its own code with preemption and interrupts enabled, after block and yield its kernel call with preemption disabled, and after an interrupt what was interrupted. |
| PreemptionReturns.SchedulerRunsWhenNeeded | components/context-switch-preempt-ppce500/implementation.c:201-322 | The scheduling loop starts exactly when a task blocks or yields, when an interrupt finds preemption enabled, and when preempt_enable finds a preemption pending, and remembers which of them it was. |
| PreemptionReturns.OnlySwitchesToScheduled | components/context-switch-preempt-ppce500/implementation.c:211-216 | The current task changes only to the one the scheduler picks, with no preemption, event or tick pending. |
| PreemptionReturns.PendingIsLookedAt | components/interrupt-event-ppce500/implementation.c:64-68 | A preemption pended by an interrupt, an unblocking, an unlock or a delivery stays pending until the loop starts another pass. |
| Preemption.RunStepShrinks | components/context-switch-preempt-ppce500/implementation.c:269-276 | While no interrupt comes and the system is not asleep, each step of the scheduling loop lowers a natural number. |
| Preemption.LoopEndsWithoutInterrupts | components/context-switch-preempt-ppce500/implementation.c:259-282 | Hence, from any state of any run, the scheduling loop returns after a bounded number of steps without interrupts, or goes to sleep with no event raised and no tick pending. |
| Preemption.EveryRaiseIsServed | components/interrupt-event-ppce500/implementation.c:64-79 | If no raise falls between the load and the store of the interrupt word that clear another bit, every raised event has been handled after it was raised whenever interrupts and preemption are both enabled. |
| Preemption.RaisesLostIffStoreErases | components/interrupt-event-ppce500/implementation.c:76 | In a run no raise is ever lost if and only if no step that clears a bit stores a word that lacks an event raised since the word was loaded, however many interrupts come between load and store. |
| Preemption.SomeRunLosesARaise | components/interrupt-event-ppce500/implementation.c:76 | A run of the code in which a raised event is lost. |
| PreemptionAccounts.RaiseIsHandled | components/interrupt-event-ppce500/implementation.c:64-79 | An event that an interrupt of the run raises is handled by a later step, at the latest when interrupts and preemption are next both enabled, unless a store that clears another bit erases a raise meanwhile. |
| PreemptionAccounts.HandledWasRaised | components/interrupt-event-ppce500/implementation.c:70-79 | At every point of a run an event has been handled no more often than interrupts raised it. |
| PreemptionAccounts.PassHandlesTheSnapshot | components/interrupt-event-ppce500/implementation.c:64-79 | A pass handles exactly the events raised when it started, each once and in ascending order, whatever is raised meanwhile. |
| PreemptionAccounts.EveryTickReachesTheTimers | components/timer/implementation.c:137-174 | Whenever interrupts and preemption are both enabled, every timer has been looked at exactly once for each tick that interrupts counted. |
| PreemptionAccounts.HaltsExactlyWhen | components/timer/implementation.c:142-147 | A run ends in a fatal error exactly when the loop looks for ticks and two or more were counted since it took the last, or when the scheduler picks something that is no task. |
| Sched.Sched.LockKeepsNext | components/phact/implementation.c:99-108 | Locking a mutex never unseats the scheduled task, which is why it pends no preemption. |
| Sched.Sched.StartPicksTaskZero | components/kochab/implementation.c:100-112 | The task start() switches to is the one the scheduler picks. |
| SchedPrioInherit.Scheduler.SetRunnable | components/sched-prio-inherit/implementation.c:41-45 | The task becomes its own blocker; nothing else changes. |
| SchedPrioInherit.Scheduler.SetBlockedOn | components/sched-prio-inherit/implementation.c:47-51 | The task is blocked on the blocker; nothing else changes. |
| SchedPrioInherit.Scheduler.GetNext | components/sched-prio-inherit/implementation.c:53-79 | Where the walk meets no chain without end the loops end and return what the reference model returns. |
| SchedPrioInherit.AssertsIffWalkLoops | rtos/sched.py:231-245 | The assertion of the reference model fails, from any task on, if and only if the walk meets a chain without end: one that has none, behind chains that all end in NONE. |
| SchedPrioInherit.ChainMeaning | rtos/sched.py:231-241 | The reference model follows a chain to its one end, and its assertion fails exactly on chains without an end. |
| SchedPrioInherit.EndIsUnique | components/sched-prio-inherit/implementation.c:66-75 | A chain of blocked-on words has at most one end. |
| SchedPrioInherit.CycleNeverEnds | components/sched-prio-inherit/implementation.c:66-75 | A chain that returns to a task that is not runnable has no end, so the walk over it does not terminate. |
| SchedPrioInherit.ChainsEndIffAcyclic | components/sched-prio-inherit/implementation.c:63-76 | Every chain ends if and only if no task but a runnable one is on a cycle. |
| SchedPrioInherit.AcyclicAnswers | rtos/sched.py:231-245 | On an acyclic graph the reference model never fails its assertion, from whichever task it starts. |
| SchedPrioInherit.GetNextMeaning | rtos/sched.py:228-245 | The answer is the runnable task to which the highest-priority task whose chain ends in a runnable task lends its priority, and nobody exactly if every chain ends in NONE. |
| SchedPrioInherit.ClimbingIsAcyclic | components/sched-prio-inherit/implementation.c:53-79 | If every blocked task ranks below its blocker, the graph is acyclic. |
| SchedPrioInherit.BlockingClosesIff | components/sched-prio-inherit/implementation.c:47-51 | Blocking a task on another keeps an acyclic graph acyclic if and only if the chain of the other does not pass through the task. |
| SchedPrioInherit.LooserIsAcyclic | components/sched-prio-inherit/implementation.c:41-51 | Setting tasks runnable or blocking them on nobody keeps the graph acyclic. |
| SchedPrioInherit.ClosingLoopsAtOnce | components/sched-prio-inherit/implementation.c:53-79 | When the scheduled task is blocked on a task whose chain leads back to it, the walk of sched_get_next meets that cycle at once. |
| SchedPrioCeiling.Scheduler.constructor | components/sched-prio-ceiling/implementation.c:43-49 | All tasks blocked, all mutexes free: a well-formed queue. |
| SchedPrioCeiling.Scheduler.SetRunnable | components/sched-prio-ceiling/implementation.c:85-89 | The word of the task becomes its own index; the queue stays well-formed. |
| SchedPrioCeiling.Scheduler.SetBlocked | components/sched-prio-ceiling/implementation.c:91-95 | The word of the task becomes NONE; the queue stays well-formed. |
| SchedPrioCeiling.Scheduler.SetMutexLockedBy | components/sched-prio-ceiling/implementation.c:98-107 | Under the two internal assertions the word of the mutex becomes the index of its holder, and every holder stays after the mutexes it holds. |
| SchedPrioCeiling.Scheduler.SetMutexUnlocked | components/sched-prio-ceiling/implementation.c:109-113 | The word of the mutex becomes NONE. |
| SchedPrioCeiling.Scheduler.GetNext | components/sched-prio-ceiling/implementation.c:116-144 | The loop returns the task behind the first entry that stands for a runnable task, and the last entry if there is none. |
| SchedPrioCeiling.GetNextMeaning | components/sched-prio-ceiling/implementation.c:116-144 | The result is a runnable task if and only if there is one; it is then the one task whose effective index, the least of its own and those of the mutexes it holds, is before those of all other runnable tasks; with none runnable it is the entry of the last index. |
| SchedPrioCeiling.LockKeepsNext | components/sched-prio-ceiling/implementation.c:98-107 | The scheduled task stays scheduled when it locks a free mutex above it. |
| Kernel.Send | components/signal/implementation.c:58-67 | The signals are added to those of one task, which becomes runnable and no longer blocked on anyone; nothing else changes. |
| Kernel.Enter | components/signal/implementation.c:74-94 | A wait begins: with a requested signal pending the scheduler is left alone, otherwise this task, and no other, is blocked on the given blocker. |
| Kernel.Wake | components/blocking-mutex/implementation.c:177-184 | The scan over the tasks signals and deregisters exactly the tasks registered for the object and changes no other. |
| KernelSafety.StepKeepsInv | components/signal/implementation.c:58-106 | Every step of signals, mutexes, semaphores and timers keeps the invariant of the kernel objects. |
| KernelSafety.MutexAttemptKeeps | components/blocking-mutex/implementation.c:109-116 | An attempt on a mutex keeps it: the mutex is taken free, or the task registers and waits for its present holder. |
| KernelSafety.UnlockKeeps | components/blocking-mutex/implementation.c:163-189 | Unlocking keeps it, although the holder is cleared only after the waiters are woken. |
| KernelSafety.SemAttemptKeeps | components/simple-semaphore/implementation.c:72-76 | An attempt on a semaphore keeps it. |
| KernelSafety.PostKeeps | components/simple-semaphore/implementation.c:104-136 | A post keeps it, although it looks for waiters only when the value is zero. |
| KernelSafety.ResumeKeeps | components/signal/implementation.c:85-103 | Returning from yield() inside a wait keeps it, after wake-ups, time-outs and unrelated signals alike. |
| KernelSafety.RunKeepsInv | components/signal/implementation.c:58-106 | Every state of every run satisfies the invariant of the kernel objects. |
| KernelTheorems.BlockedOnTrueHolder | components/blocking-mutex/implementation.c:114-115 | In every reachable state a task blocked on another task waits for, and is registered with, a mutex that the other holds right now. |
| KernelTheorems.NoLostMutexWakeup | components/blocking-mutex/implementation.c:109-116 | In every run a task that waits for a mutex without a pending wake-up is registered for it and another task holds it. |
| KernelTheorems.HolderKeepsMutex | components/blocking-mutex/implementation.c:53-71 | From the step that takes a mutex until the holder unlocks it the holder field names the holder. |
| KernelTheorems.LockOrderKeepsSchedulerTerminating | components/sched-prio-inherit/implementation.c:53-79 | If tasks wait only for mutexes that rank above all those they hold, the inheritance graph is acyclic in every state of every run, so sched_get_next terminates. |
| KernelTheorems.UnlockWakesWaiters | components/blocking-mutex/implementation.c:163-189 | In every run, when a mutex is unlocked it is free and every task that waits for it is runnable with its wake-up pending. |
| KernelTheorems.CallsReturnHolding | components/blocking-mutex/implementation.c:96-160 | In every run the step with which a call of mutex_lock, mutex_lock_timeout, sem_wait or sem_wait_timeout returns takes the mutex, or one unit, and nothing else, unless the call has a timeout that is over; no earlier step of the call takes anything. |
| KernelAccounts.SemaphoreLedger | components/simple-semaphore/implementation.c:46-136 | In every run the value is the number of posts made on the semaphore less the number of units taken from it, both counted from the actions of the run: modulo its width, exactly if and only if that number fits the width, and with maxima configured always exactly and never above the maximum. |
| KernelAccounts.MaximumIsWhatWasSet | components/simple-semaphore/implementation.c:152-163 | The maximum of a semaphore is 0 until it is set, and from then on what the one call gave. |
| KernelTheorems.NoLostSemaphoreWakeup | components/simple-semaphore/implementation.c:104-136 | In every run a positive value means that each task waiting for the semaphore has its wake-up pending and is runnable; a waiter without one is registered. |
| KernelAccounts.SendsReachTheirTask | components/signal/implementation.c:58-67 | In every run, a step that sends signals to a task adds exactly these to its signals and makes it runnable, and changes the signals and runnability of no other task. |
| KernelAccounts.SentSignalsArrive | components/signal/implementation.c:44-106 | At any later point of the run each signal sent is still pending for the task it was sent to, or that task has received it since. |
| KernelAccounts.SignalsPendIffSent | components/signal/implementation.c:44-106 | A signal is pending for a task if and only if some step of the run sent it to that task and the task has not received it since. |
| KernelAccounts.BitsAreSent | components/signal/implementation.c:58-67 | A signal becomes pending only by a task, an interrupt event or a timer that sends it, or, the task-timer signal, by the unlock or post the task is registered for or its own timer. |
| KernelAccounts.BlockedIffNotWoken | components/signal/implementation.c:74-106 | A task is blocked if and only if it blocked itself, in a wait with no requested signal pending, and no signal sent to it, and no unlock or post it is registered for, has come since. |
| KernelAccounts.HolderIffTook | components/blocking-mutex/implementation.c:53-189 | A task holds a mutex if and only if it took it, while free, and has not unlocked it since. |
| KernelAccounts.MutexWaiterIff | components/blocking-mutex/implementation.c:109-184 | A task is registered for a mutex if and only if it went to wait for it, finding it held, and since then no unlock of it has come and the task has not gone to wait for a mutex again. |
| KernelAccounts.SemWaiterIff | components/simple-semaphore/implementation.c:72-131 | A task is registered for a semaphore if and only if it went to wait for it, finding its value zero, and since then no post at value zero has come and the task has not gone to wait for a semaphore again. |
| KernelAccounts.ClockCountsTicks | components/timer/implementation.c:157 | The tick counter is the number of ticks of the run. |
| KernelTheorems.WaitTakesRequested | components/signal/implementation.c:74-106 | In every run a call of signal_wait_set, or sleep, returns with the task's own resuming when requested signals are pending; it takes exactly those, and until then no signal pending since the call is taken from the task, whatever happens in between. |
| KernelTheorems.TimeoutsAreKept | components/blocking-mutex/implementation.c:126-160 | In every run, as long as the deadline fits the tick counter and the counter has not wrapped since the call: an attempt on what is not available returns false at or after the deadline, and before it waits with a timer argument between 1 and the timeout that is exactly the number of ticks left. |
| KernelSchedule.ScheduledInherits | components/sched-prio-inherit/implementation.c:53-79 | In every run the scheduled task is runnable and reached from some task along tasks each of which waits for a mutex that the next one holds right now, while every task of higher priority than that one is stuck behind a task that waits for no mutex. |
| KernelSchedule.StepStaysAcyclicIff | components/kochab/implementation.c:48-57 | A step from an acyclic inheritance graph leads to a cyclic one if and only if it blocks its task on a holder whose chain passes through the task, which can be told before the step. |
| KernelSchedule.AcyclicIffNoStepCloses | components/kochab/implementation.c:48-57 | In a run the inheritance graph is acyclic in every state if and only if no step blocks its task on a task whose chain leads back to it. |
| KernelSchedule.ReturnsIffNoStepCloses | components/sched-prio-inherit/implementation.c:53-79 | In a run whose steps scheduled tasks and interrupts make, sched_get_next returns in every state if and only if no step blocks its task on a task whose chain leads back to it. |
| KernelSchedule.OppositeOrdersDeadlock | components/blocking-mutex/implementation.c:109-116 | A run whose every step is made by the scheduled task or by an interrupt, with its actions, in which two tasks lock two mutexes in opposite orders, end up blocked on each other, and sched_get_next does not return. |
| Timeouts.DeadlineTest | components/simple-semaphore/implementation.c:87-96 | The comparison of absolute_timeout with the tick counter is right at every tick before the deadline if and only if start plus timeout fits 32 bits; the difference survives narrowing to 16 bits. |
| PhactCeiling.ScheduledIsAbove | components/sched-prio-ceiling/implementation.c:116-144 | The own index of the scheduled task is before every mutex that any other task holds. |
| PhactCeiling.LockableIsFree | components/blocking-mutex/implementation.c:53-71 | A mutex of higher priority than the scheduled task is free, and the assertions of sched_set_mutex_locked_by hold for it, unless that task holds it already. |
| PhactCeiling.StepKeepsCeiling | components/phact/implementation.c:99-122 | Every step of a disciplined scheduled task, every interrupt and tick keeps the ceiling invariant: nobody waits for a mutex, holders are runnable, and the index ranges of any two holders do not overlap. |
| PhactCeiling.CeilingsPreventContention | components/blocking-mutex/implementation.c:96-123 | Immediate ceilings: if scheduled tasks lock only mutexes of higher priority and wait only while holding none, then in every run no task waits for a mutex and the scheduled task finds every mutex it may lock free. |
| PhactContention.UnsharedNeverContends | components/sched-prio-ceiling/implementation.c:98-107 | If no two tasks have a lower priority than one mutex, then in every run in which tasks lock only mutexes above them no task waits for a mutex. |
| PhactContention.SharedContends | components/blocking-mutex/implementation.c:96-123 | If two tasks do, a run exists in which scheduled tasks make all steps and keep the whole discipline but for one wait with a mutex held, and in which a task ends up waiting for the mutex. |
| PhactContention.ContentionIffShared | components/sched-prio-ceiling/implementation.c:98-107 | Over all configurations: ceilings alone prevent contention if and only if no two tasks have a lower priority than one mutex. |
| JointMachine.JointStepIsScheduled | components/context-switch-preempt-ppce500/implementation.c:201-257 | With both machines side by side, each step of the kernel objects, a call carried out by a kernel section or a delivered signal, is made by the task the scheduler picks or by no task, whatever interrupts come. |
| JointMachine.JointRunIsScheduled | components/context-switch-preempt-ppce500/implementation.c:201-322 | Hence what happens to the kernel objects in any run under interrupts is a run of scheduled tasks. |
| JointMachine.RunningTaskInherits | components/sched-prio-inherit/implementation.c:53-79 | Kochab under interrupts: whenever interrupts and preemption are enabled, the current task is reached from some task along tasks each of which waits for a mutex that the next one holds, and every task of higher priority is stuck behind a task that waits for no mutex. |
| JointMachine.NoContentionUnderInterrupts | components/sched-prio-ceiling/implementation.c:98-107 | Phact under interrupts: if tasks keep the ceiling discipline, no task ever waits for a mutex. |
| KernelSections.StepIsCarried | components/kochab/implementation.c:48-97 | Every step that a task makes on the kernel objects is carried out by some kernel section of that task, made of unblocking, locking, unlocking and blocking, that ends with the scheduler state after the step. |
| KernelObjects.Objects.Unblock | components/kochab/implementation.c:86-97 | The task becomes runnable and a preemption is pending. |
| KernelObjects.Objects.SignalRecv | components/signal/implementation.c:44-56 | Returns the requested signals that are pending and clears exactly those. |
| KernelObjects.Objects.SignalSendSet | components/signal/implementation.c:58-67 | The arrays change as in the kernel machine, and a preemption is pending. |
| KernelObjects.Objects.MutexTryLock | components/blocking-mutex/implementation.c:53-71 | True exactly if the mutex was free; then the task is its holder and the arrays are as in the kernel machine, otherwise nothing changes. |
| KernelObjects.Objects.WakeWaiters | components/blocking-mutex/implementation.c:177-184 | The loop carries out Kernel.Wake in place, and pends a preemption exactly if it wakes a task. |
| KernelObjects.Objects.MutexUnlock | components/blocking-mutex/implementation.c:163-189 | The mutex is free, and exactly the tasks registered for it are deregistered, sent the task-timer signal and made runnable; this is the unlock step of the kernel machine. |
| KernelObjects.Objects.SemTryWait | components/simple-semaphore/implementation.c:46-62 | True exactly if the value was not zero; then it is one less. |
| KernelObjects.Objects.SemPost | components/simple-semaphore/implementation.c:104-136 | The value of this semaphore, and no other, is one more within its width; if it was zero, exactly the tasks registered for it are deregistered, signalled and made runnable; this is the post step of the kernel machine. |
| MessageQueue.MemCopy | components/message-queue/implementation.c:221-232 | Copies the length bytes the source held before the call and leaves the rest of the destination as it was, between buffers and within one as far as the assertion allows. |
| MessageQueue.OffsetsFit | components/message-queue/implementation.c:256-257 | The index of a put fits 8 bits, the byte offset 16 bits, and the slot lies inside the buffer. |
| MessageQueue.OverwriteOne | components/message-queue/implementation.c:257-258 | Writing one slot changes that message and no other. |
| MessageQueue.PutAppends | components/message-queue/implementation.c:256-259 | Writing the slot behind the last message appends to the messages in the queue, across the end of the ring. |
| MessageQueue.GetDrops | components/message-queue/implementation.c:336-337 | Moving head on drops the oldest message and no other. |
| MessageQueue.Queue.constructor | components/message-queue/implementation.c:60-80 | An empty queue. |
| MessageQueue.Queue.TryPut | components/message-queue/implementation.c:251-281 | Refused exactly if the queue is full, and then nothing changes; otherwise the message goes last byte for byte.  The puts of all time are the gets of all time followed by the messages in the queue. |
| MessageQueue.Queue.TryGet | components/message-queue/implementation.c:318-348 | Refused exactly if the queue is empty, and then nothing changes; otherwise the oldest message is copied out byte for byte and leaves the queue, first in first out over all time; waiters are woken exactly if the number left equals the threshold. |
| MessageQueueProtocol.StepKeepsInv | components/message-queue/implementation.c:192-217 | Every step of puts, gets, waits, time-outs and signals keeps the invariant of waiters and registrations, whatever the threshold. |
| MessageQueueProtocol.RunKeepsInv | components/message-queue/implementation.c:192-217 | Every state of every run satisfies that invariant and the configuration never changes. |
| MessageQueueProtocol.NobodyForgotten | components/message-queue/implementation.c:238-249 | In every reachable state a task that waits without a pending wake-up is registered; its queue is empty if it waits to get, and full if it waits to put and the threshold is the queue length less one. |
| MessageQueueProtocol.WakeupsNeedThreshold | components/message-queue/implementation.c:339 | In systems of any number of tasks: no task is ever left waiting at a queue at which it could go on, not woken, if and only if the threshold is the queue length less one or there is only one task; as written, the former means that the length is the number of queues. |
| MessageQueueProtocol.MutualWaitNeedsThreshold | components/message-queue/implementation.c:339 | A putter and a getter can end up waiting for each other at one queue if and only if the threshold reaches the queue length and there are two tasks or more; as written, the former means that the queue is shorter than the number of queues. |
| MessageQueueProtocol.AssertionNeedsThreshold | components/message-queue/implementation.c:157-158 | The internal assertion on the queues of registered tasks holds in every reachable state if and only if the threshold is the queue length less one, or the queue length is one, or there is only one task. |
| MessageQueueProtocol.WaiterMayBeRunnable | components/message-queue/implementation.c:159-160 | The internal assertion that registered tasks are blocked fails in some run of every configuration, of one task or more. |
| MessageQueueProtocol.CallsMoveOneMessage | components/message-queue/implementation.c:238-316 | In every run the step with which put, get or one of their timed forms returns moves exactly one message, unless the call has a timeout that is over and its queue is full, or empty, even then; no earlier step of the call moves any. |
| MessageQueueProtocol.TimeoutsAreKept | components/message-queue/implementation.c:283-303 | In every run put_timeout and get_timeout wait with exactly the ticks left and return false only at or after the deadline, if it fits the tick counter and the counter has not wrapped. |
| MessageQueueAccounts.MessageLedger | components/message-queue/implementation.c:238-348 | No message is lost or made up: at every point of a run a queue holds as many messages as puts went through less the gets that did, counted from the actions of the run. |
| MessageQueueAccounts.SendsReachTheirTask | components/signal/implementation.c:58-67 | A signal sent reaches its task and makes it runnable, and changes no other task, no registration and no queue. |
| MessageQueueAccounts.SignalsPendIffSent | components/message-queue/implementation.c:175-217 | A signal is pending for a task if and only if some step of the run sent it to that task, as the put or get does that wakes a queue, and the task has not received it since. |
| MessageQueueAccounts.BlockedIffNotWoken | components/message-queue/implementation.c:192-217 | A task is blocked if and only if it blocked itself, in a wait with no requested signal pending, and no signal sent to it, and no put or get that wakes its queue, has come since. |
| MessageQueueAccounts.WaiterIff | components/message-queue/implementation.c:175-217 | A task is registered for a queue if and only if it went to wait for it, finding it full or empty, and since then no put or get has woken its waiters, no timed wait of the task has ended and it has not gone to wait again. |
| MessageQueueProtocol.WaitersWakeup | components/message-queue/implementation.c:175-190 | The loop signals and deregisters exactly the tasks registered for the queue. |
| Timers.PeriodicIsExact | components/timer/implementation.c:76-134 | A periodic timer enabled at tick T with reload R expires at the ticks T + kR and no others, through any number of wraps, and timer_remaining is always the number of ticks left. |
| Timers.OneShotIsExact | components/timer/implementation.c:124-134 | A one-shot timer of R ticks started at T expires at T + R and never again, and timer_remaining is always the number of ticks left. |
| Timers.PeriodicDelivers | components/timer/implementation.c:76-174 | Over any run of ticks, with other timers used in any way in between: a periodic timer enabled at T with reload R sends all the signals it is configured with to its task at every T + kR, with overflow raised there exactly if they were all pending at its turn, and does not change at other ticks. |
| Timers.OneShotDelivers | components/timer/implementation.c:76-174 | Likewise a one-shot timer due in R ticks sends its signals at T + R and never again. |
| Timers.WordDistance | components/timer/implementation.c:63-68 | Counts less than the 16-bit range apart agree in 16 bits only if equal, and their 16-bit difference is their difference. |
| Timers.System.ProcessOne | components/timer/implementation.c:76-104 | The next expiry is a reload later, or the timer is disabled; all its signals are sent to its task; overflow is raised exactly if all of them were pending; task, signals, reload and error id stay; no other timer changes; a timer with an error id is fatal. |
| Timers.System.Enable | components/timer/implementation.c:106-122 | Sets the expiry a reload from now; without a reload the timer is processed at once. |
| Timers.System.OneShot | components/timer/implementation.c:124-134 | Leaves a non-periodic timer due after the timeout, or disabled with its signals sent if the timeout is 0. |
| Timers.System.TickProcess | components/timer/implementation.c:137-174 | More than one pending tick is fatal, and so is the expiry of a timer with an error id; otherwise a tick changes, of the timers that expire at it, the expiry or enabled flag, and the overflow flag if all signals were pending at their turn, and no field of any other; pending for a task are the signals that were and those of its expired timers. |
| Timers.PendingMeaning | components/timer/implementation.c:162-170 | A signal is pending at a timer's turn exactly if it was before the tick or an earlier expired timer sent it. |
| Timers.System.TimerRemaining | components/timer/implementation.c:238-252 | The 16-bit difference between expiry and the present tick, 0 for a disabled timer. |
| Timers.System.CheckOverflow | components/timer/implementation.c:221-236 | Returns the overflow flag and clears it. |
| Timers.System.Disable | components/timer/implementation.c:201-207 | Only the enabled flag of the timer changes. |
| InterruptEvents.RaisesAreServed | components/interrupt-event-armv7m/implementation.c:31-44 | Every raise is followed by a handling of its event that begins after it, unless the event is still pending. |
| InterruptEvents.System.RaiseEvent | components/interrupt-event-armv7m/implementation.c:71-75 | The event is pending and no other bit changes. |
| InterruptEvents.System.ClearAndHandle | components/interrupt-event-armv7m/implementation.c:38-41 | One round clears and then handles one event, whatever is raised in between; the pending events stay exactly those raised and not cleared since. |
| InterruptEvents.System.Process | components/interrupt-event-armv7m/implementation.c:31-44 | The call returns however many events are raised meanwhile; it handles each event of its snapshot exactly once in ascending order and sends exactly their signals; every raise before the call has a handling after it when the call returns, the pending events stay exactly those raised and not cleared since, and every cleared event is handled. |
| InterruptEvents.System.HandleEvent | components/interrupt-event-signal/implementation.c:35-49 | Adds the signals of the event to those of its task. |
| InterruptEvents.AscendingIsSorted | components/interrupt-event-armv7m/implementation.c:37 | The order of handling is ascending, each pending event once. |
| SchedRoundRobin.Scheduler.SetRunnable | components/sched-rr/implementation.c:39-43 | The task is runnable, all others as before. |
| SchedRoundRobin.Scheduler.SetBlocked | components/sched-rr/implementation.c:45-49 | The task is not runnable, all others as before. |
| SchedRoundRobin.Scheduler.GetNext | components/sched-rr/implementation.c:51-86 | Without assume_runnable, or with it and some task runnable, the search ends and agrees with the rotate-and-take-first model in its result and in the new current index. |
| SchedRoundRobin.ModelMeaning | rtos/sched.py:178-181 | The model picks the first runnable task after the current one in cyclic order, the current one last, and none if there is none. |
| SchedRoundRobin.NoStarvation | components/sched-rr/implementation.c:51-86 | A task that stays runnable is picked within as many calls as it is places away, at most the number of tasks, however other tasks change between calls. |
| SchedRoundRobin.EmptyRoundStartsAfresh | components/sched-rr/implementation.c:77-86 | After a call that finds no task runnable the next call picks the runnable task with the lowest id. |
| Dependencies.SortByDependencies | pylib/components.py:370-397 | Strict mode succeeds if and only if some order provides every requirement before its use, tolerant mode if and only if some node provides each requirement; the result is a permutation, in such an order whenever there is one, and unchanged if the nodes were in one. |
| Dependencies.StuckMeansNoOrder | pylib/components.py:376-395 | When no node left can follow, no order exists. |
| Dependencies.LeftoversDecide | pylib/components.py:383-390 | The tolerant test, which looks only at what is left, decides whether every requirement is provided by some node. |
| Typedefs.SortTypedefs | pylib/components.py:148-167 | The result holds exactly the typedefs grounded outside the input, as often as the input, each behind a definition of its base type. |
| Typedefs.MoveMatching | pylib/components.py:153-156 | One pass moves exactly the matching typedefs to the end of the result. |
| Typedefs.ChainIsSorted | pylib/components.py:158-165 | At the end no typedef of a chain that starts outside the input is left over. |
| SignalNumbering.AssignSignalVals | components/rigel.py:110-134 | Values never run out, differ between any two signals of one set, and never exceed the number of signals a signal shares a set with, all lower values being taken by such signals; the final assertion holds if and only if no set lists a signal twice. |
| SignalNumbering.LowestUnused | components/rigel.py:128-129 | Pigeonhole: the lowest unused value is at most the number of used ones. |
| SignalNumbering.SetAsserted | components/rigel.py:131 | The assertion on one set holds if and only if the set lists no signal twice. |
| CeilingConfig.SortIsStable | components/phact.py:77 | Of two entries the one of higher priority comes first, and of equal ones the one that came first before. |
| CeilingConfig.Configure | components/phact.py:54-80 | Tasks, mutexes and the queue of both are sorted, every entry knows its places, and each task has a timer of its own, behind the timers there were, that is disabled, without overflow, reload or error id, and sends that task its task-timer signal and no other. |
| CeilingConfig.TablesAreOk | components/phact.py:54-88 | The rendered tables are mutually inverse, leave out no index, and SCHED_INDEX_NONE is no index. |
| CeilingConfig.IndexNone | components/phact.py:82-88 | The index type is the narrowest of 8, 16 and 32 bits that keeps its largest value free. |
| CeilingConfig.IndicesFollowPriorities | components/phact.py:54-80 | A task of higher priority has the lower index, and a task comes before a mutex if and only if its priority is not below the mutex's. |
| CeilingConfig.HighestPriorityRuns | components/sched-prio-ceiling/implementation.c:116-144 | Over the tables of a configuration the scheduler picks a runnable task whose effective priority no priority behind another runnable task exceeds. |

## Left out

- Preemption.EveryRaiseIsServed: requires that no raise is torn, because the code does lose torn raises; `RaisesLostIffStoreErases` says exactly when.
- PreemptionAccounts.RaiseIsHandled: requires for the same reason that no store erases a raise meanwhile.
- That only an interrupt ends a sleep: the preemption machine may also wake by itself, which adds runs and takes none away.
- SchedPrioInherit.Scheduler.GetNext: requires that its walk meets no chain without end, because on such a chain the loop of the code does not end.
- KernelTheorems.TimeoutsAreKept: requires that the deadline fits the tick counter, which `DeadlineTest` shows necessary, and that the counter has not wrapped since the call.
- MessageQueueProtocol.TimeoutsAreKept: has the same two conditions.
- Timers.System.TickProcess: says nothing about the state after a fatal error, with which a run ends.
- Timers.System.constructor: at most 255 timers, because with 256 the 8-bit loop variable of the code never passes the last id.
- InterruptEvents.System.Process: takes the raises between accesses as a parameter instead of another thread of control.
- SignalNumbering.AssignSignalVals: takes the order of the signals as a parameter, of which the sorted order is one.
- The joint machine lets a handled event or an expired timer send any signals to the task it unblocks; which ones is configuration.
- The retry loops of mutex_lock, sem_wait, message_queue_put and message_queue_get and their timed forms are not methods but program points of the machines, because other tasks run inside them.
- The timers of the machines are signals that may be sent at any time; that timers expire on time is shown for the timers alone.
- CeilingConfig.Configure: sorts by a function with the properties of Python's stable sort, not by the library's own algorithm, and leaves out the signal labels, signal sets and name prefixes that configure also writes.
- Statistics of mutexes.
- Parsing and printing of typedef lines, error messages, XML schemas and template rendering.
- Register frames, stacks and assembly, of which only the saved preemption flag and the order of the wrapper's actions are modelled.
- The components sched-prio, simple-mutex, task, error and profiling, and the variants acamar, gatria, kraz and acrux: they would add only easier members.
- The POSIX and stub platforms, machine timers and debug output, and the `prj` tool apart from the sorting functions.
