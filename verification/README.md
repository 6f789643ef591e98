# Verification of the kernel's heap, scheduler, semaphores, FIFOs and timers

This project models the shared mutable state of the dual-core RP2040 kernel and proves what it keeps
in every run.

* **Heap** (`Bits`, `HeapTree`, `HeapSpec`, `HeapWalk`, `Heap`, `HeapSafety`, `HeapRuns`): the buddy tree in one array, for any
  number of levels up to 13. The three stackless walks are loops on a real array, proved equal to recursive
  functions of the tree; what callers rely on is then proved about those functions. Every request size is modelled,
  the whole heap included.
* **Scheduler** (`SchedModel`, `SchedPlacement`, `SchedSafety`, `SchedStats`, `SchedTheorems`, `SchedRounds`,
  `SchedSleep`, `SchedEffects`, `SchedLimits`, `SchedGap`): the two-core scheduler as a state machine whose steps are the
  sections held under the scheduler's lock, the PendSV switch, the passing of time and the sleep alarm. `SchedEffects`
  describes each step a second time, as a relation on threads, lists and pointers, and proves that between states of
  runs the two agree both ways.
* **The same in memory** (`RingNodes`, `RingSeq`, `WaitQueue`, `ThreadNodes`, `ThreadRing`, `WaitList`, `ThreadLists`,
  `Kernel`, `KernelRuns`): a TCB is one `Node` whose `next` and `prev` are used by its level's ring, by the sleep list and by the blocked
  lists in turn. `ThreadRing` and `WaitList` are the link updates of one list; `ThreadLists` holds all lists over the same
  TCBs and proves that changing one leaves every other linked; `Kernel` has the functions of `os/schedule.c` as methods on
  these lists, the counters, RunPt and NextRunPt, each proved equal to its section of the state machine.
  What a method may touch afterwards is what it could touch before and what it allocated, so calls can follow each other:
  `KernelRuns` performs any run of the state machine on a kernel in memory, and shows that a method can be called exactly
  when its event is enabled.
* **Semaphores** (`SemaState`, `BinarySemaphore`, `BinaryWakeups`, `CountingSemaphore`, `CountingWakeups`,
  `CountingCalls`): any number of threads, one load, store or lock operation at a time, in any order, and what a whole call
  does that nobody interrupts.
* **FIFOs** (`Modulo`, `SlotRing`, `Spsc`, `Fifo32`, `BoundedFifo`, `FifoCalls`): the lock-free single-producer single-consumer ring
  at each load and store, and the blocking FIFO over three semaphores with any number of putters and getters.
* **Periodic tasks** (`Clock`, `PeriodicModel`, `PeriodicEffects`, `PeriodicQueue`, `PeriodicRuns`): the circular list that is re-sorted in
  place, its timer, and every run of adding, firing and handling.

Seven promises of the code hold only under a condition. Each has an exact condition and a run that breaks it: a request
for more than half the heap (`GrantsSafelyIff`, `WholeHeapOverlaps`), a second `schedule` before the switch
(`SecondScheduleIff`, `SecondScheduleReached`), the gap between `sched_block` or `sleep` and its `schedule` (`GapIff`,
`GapRun`, `BlockGapSharesThread`), the unlocked look at the list in `b_signal` (`UnblocksBreakIff`, `TwoSignalsBreak`), the
gap between finding a semaphore taken and joining its list (`MissedIff`, `NeverMissedIff` and `WakeupMissed`, in
`BinaryWakeups` and in `CountingWakeups`), a second `init_semaphore` (`InitSemaphoreIff`,
`SecondInitForgets`), and a periodic task added with an earlier due time than the root (`AddKeepsIff`, `EarlyIff`,
`NeverEarlyIff`, `EarlyRun`). Where a comment and the code disagree the code is followed: `os/schedule.c:265-268` calls a
thread with a larger priority number the more urgent one, and `os/periodic.c:65` speaks of a sorted queue.

Times and ticks are natural numbers; where the code stores 32 bits, `Clock.TickAfter` wraps. Counters are unbounded.
`INITIAL`, `Initial` and `Fresh` are the states after the init functions.

## Model

| member | source | states |
|---|---|---|
| Bits.NextPow2IsLeast | lib/utils.h:6-12 | for every argument from 1 to 2^31 the shift by the count of leading zeros gives the least power of two that is not below it |
| HeapTree.CodeAddrIsLo | os/heap.c:44-45 | the masked product of index and block size is the address reached by descending from the root, half a block at a time |
| HeapTree.LoAligned | os/heap.c:44-45 | that address is the node's position in its level times its block size |
| HeapTree.LiveBlocksSafe | os/heap.c:43-51 | live blocks never overlap, lie inside the heap and are aligned to their own size |
| HeapTree.FreeIffUntouched | os/heap.c:32-42 | a node is NULL with no allocated ancestor iff its byte range overlaps no live block |
| HeapTree.LiveDeterminesTree | os/heap.c:102-114 | two well-formed trees with the same live blocks are equal slot by slot: branches are no history |
| HeapTree.FindExact | os/heap.c:29-79 | the descent returns nothing iff no free node of the height exists, and otherwise the one with the lowest index |
| HeapTree.AllocateKeeps | os/heap.c:43-51 | taking a free node and marking the nodes above it keeps the tree invariant and adds exactly that node to the allocated ones |
| HeapTree.LiveAfterAllocate | os/heap.c:43-51 | allocation adds exactly the node's block to the live ones |
| HeapTree.ReleaseKeeps | os/heap.c:102-114 | clearing a node and the branches that lead nowhere keeps the tree invariant and removes exactly that node |
| HeapTree.LiveAfterRelease | os/heap.c:102-114 | release takes exactly the node's block from the live ones |
| HeapTree.FindPtrExact | os/heap.c:174-209 | the search returns the one node below the root that holds the pointer, and 0 iff there is none, NULL and the branch mark included |
| HeapTree.UsedAfterChange | os/heap.c:120-164 | one more allocated node adds exactly its block size to the bytes counted |
| HeapTree.UsedIsSizeSum | os/heap.c:120-164 | the bytes counted over the tree are the sum of the sizes of the live blocks |
| HeapTree.UsedFits | os/heap.c:166-168 | they never exceed the heap |
| HeapSpec.RoundedIsLevel | os/heap.c:24-27 | the rounded request is the smallest block size of the heap that holds it |
| HeapWalk.UpTakesSteps | os/heap.c:36-40 | going up strictly shortens what is left of the tour |
| HeapWalk.DownTakesSteps | os/heap.c:70-78 | so does going down to a child not visited yet |
| HeapWalk.MallocTurn | os/heap.c:32-79 | each turn of malloc's loop stays in bounds, still finds what there was to find at the call, and shortens the tour |
| HeapWalk.SearchUp | os/heap.c:186-199 | find_ptr leaves a subtree only when the pointer is not in what it skips |
| HeapWalk.SearchDown | os/heap.c:200-206 | find_ptr enters a subtree with everything before it searched |
| HeapWalk.CountLeafKeeps | os/heap.c:128-136 | heap_stats counts an allocated node once and in full |
| HeapWalk.CountMoveKeeps | os/heap.c:138-163 | the bytes counted plus the bytes ahead stay the total, and the tour gets shorter |
| HeapClass.Heap.constructor | os/heap.c:15-18 | the heap starts with every slot NULL |
| HeapClass.Heap.Malloc | os/heap.c:20-82 | the loop terminates and leaves exactly the tree and pointer of the specification, for every 32-bit request |
| HeapClass.Heap.Free | os/heap.c:91-118 | the upward loop leaves exactly the tree and code of the specification |
| HeapClass.Heap.FindPtr | os/heap.c:174-209 | the loop terminates, never indexes past the array and returns the specified node |
| HeapClass.Heap.Stats | os/heap.c:120-170 | used is the bytes of the live blocks, free the rest |
| HeapSafety.MallocExact | os/heap.c:20-82 | up to half the heap: NULL iff every aligned block of the rounded size overlaps a live one, with the tree unchanged; otherwise the lowest free block, which overlaps no live one, becomes live and is counted |
| HeapSafety.FreeExact | os/heap.c:91-118 | free returns 0 iff the pointer is the address of a live block and then removes and uncounts exactly it; otherwise nothing changes |
| HeapSafety.FreeUndoesMalloc | os/heap.c:91-118 | freeing what malloc has just returned restores the whole array |
| HeapSafety.FreeOrderIrrelevant | os/heap.c:105-114 | freeing the same pointers in any order gives the same array, all NULL if they cover the live blocks |
| HeapSafety.EveryRunSafe | os/heap.c:20-118 | over every sequence of calls with requests up to half the heap, the live blocks are those granted and not freed, disjoint, inside the heap, and used is their sum |
| HeapRuns.RunFromInit | os/heap.c:15-118 | every such sequence of calls on one array, one after another, goes through those states and returns what they say |
| HeapSafety.GrantsSafelyIff | os/heap.c:34-51 | malloc hands out memory that overlaps no live block iff the root is not allocated and the request is not for the whole heap while it is in use with a free child of the root |
| HeapSafety.WholeHeapTaken | os/heap.c:49-51 | once the root is allocated every request that fits is granted over it |
| HeapSafety.WholeHeapExact | os/heap.c:34-78 | a request for more than half the heap: an unused heap is handed out whole; one in use is refused iff neither half is free, and otherwise the free half gets the first address |
| HeapSafety.WholeHeapForgotten | os/heap.c:34-78 | once the root is allocated a request up to half the heap is treated as in an unused heap: the first address, and no other block live |
| HeapSafety.WholeHeapTwice | os/heap.c:34-78 | and a larger one gets the first address too, at the root's first child |
| HeapSafety.WholeHeapOverlaps | os/heap.c:36-40 | half the heap and then the whole heap both get the first address |
| HeapSafety.WholeHeapStuck | os/heap.c:96-100 | a block at the root can never be freed |
| WaitQueue.InsertAt | os/schedule.c:219-241 | insertion adds the waiter after every key up to its own and before the first larger one, and keeps the others in order |
| WaitQueue.InsertIs | os/schedule.c:289-314 | no other place has that property |
| WaitQueue.InsertSorted | os/schedule.c:219-241 | the list stays sorted by key, and by arrival among equal keys |
| WaitListClass.WaitList.FindPlace | os/schedule.c:300-312 | the walk stops at the last node whose key is not larger |
| WaitListClass.WaitList.InsertNode | os/schedule.c:289-314 | the link updates refine the sorted insertion and keep the null-terminated list well formed; sched_block has the same code on priorities |
| WaitListClass.WaitList.RemoveHead | os/schedule.c:328-329 | taking the root removes exactly the first waiter |
| RingNodes.SpliceBefore | os/schedule.c:381-384 | four link updates put a node between two neighbours of a circular doubly linked list |
| RingNodes.Bridge | os/schedule.c:402-403 | two link updates close the circle around a node that leaves |
| ThreadRingClass.ThreadRing.PushFront | os/schedule.c:376-386 | the thread becomes the root in front of the old ring, and the circle is closed |
| ThreadRingClass.ThreadRing.Remove | os/schedule.c:399-406 | the thread leaves the circle and its successor becomes the root; alone, it leaves an empty level iff both counters are zero, and otherwise stays its root |
| ThreadRingClass.ThreadRing.Advance | os/schedule.c:147 | the root moves to its successor, which rotates the ring |
| ThreadListsClass.ThreadLists.PushRing | os/schedule.c:376-386 | a thread that is in no list joins its ring, and every other list is linked as before |
| ThreadListsClass.ThreadLists.RemoveRing | os/schedule.c:399-406 | a thread leaves its ring, and every other list is linked as before |
| ThreadListsClass.ThreadLists.AdvanceRing | os/schedule.c:147 | a ring rotates, and every other list is linked as before |
| ThreadListsClass.ThreadLists.InsertBlocked | os/schedule.c:219-241 | a thread that is in no list joins the blocked list in order through the link its ring used, and every other list is linked as before |
| ThreadListsClass.ThreadLists.InsertSleeping | os/schedule.c:289-314 | the same for the sleep list |
| ThreadListsClass.ThreadLists.TakeBlocked | os/schedule.c:254-257 | the first waiter leaves the blocked list, and every other list is linked as before |
| ThreadListsClass.ThreadLists.TakeSleeper | os/schedule.c:328-329 | the same for the sleep list |
| ThreadListsClass.ThreadLists.ListsDisjoint | os/schedule.c:206-407 | no TCB is in two lists |
| SchedPlacement.EnqueuePlaced | os/schedule.c:373-391 | a thread between two lists joins its ring and every list and counter is right again |
| SchedPlacement.DequeuePlaced | os/schedule.c:393-407 | the running thread leaves its ring, which becomes empty exactly when it was alone |
| SchedPlacement.BlockOnPlaced | os/schedule.c:216-241 | a thread between two lists joins the blocked list in order |
| SchedPlacement.SleepOnPlaced | os/schedule.c:286-314 | a thread between two lists joins the sleep list in order |
| SchedSafety.ChoiceIsActive | os/schedule.c:143-148 | on a level with an active thread the choice, root or successor, is an ACTIVE thread of that level |
| SchedSafety.RootNotRunning | os/schedule.c:96-97 | before a core is launched the root of a level with an active thread does not run |
| SchedSafety.InitSemaphoreIff | os/semaphore.c:7-10 | init_semaphore keeps the invariant iff nobody waits on the semaphore |
| SchedSafety.StepInv | os/schedule.c:116-407 | every section, on either core, keeps the whole scheduler invariant |
| SchedSafety.RunInv | os/schedule.c:116-407 | so does every run from power-up |
| SchedTheorems.EveryThreadInOnePlace | os/schedule.c:206-407 | in every run each live thread is in exactly one of its ring, the sleep list and one blocked list, once, as its state says; `OneListEach` says so of the linked TCBs |
| SchedTheorems.CountersMatchRings | os/schedule.c:373-407 | in every run the counters of a level are its ACTIVE and RUNNING members, and its ring is empty iff both are zero |
| SchedTheorems.NoThreadShared | os/schedule.c:143-152 | in every run the RUNNING threads are exactly those the two cores own, and no thread is owned by both |
| SchedTheorems.SchedulePicksBest | os/schedule.c:133-152 | in every run schedule picks an ACTIVE thread that no ACTIVE thread beats, and the idle thread only when there is none |
| SchedTheorems.LaunchPicksBest | os/schedule.c:87-101 | in every run init_scheduler, without schedule's test, still gives a core the best ACTIVE thread, not owned by the other |
| SchedTheorems.NobodyWakesEarly | os/schedule.c:323-346 | in every run the alarm's handler wakes the sleeper with the smallest tick, not before that tick, and changes no other thread |
| SchedTheorems.SignalWakesFirst | os/schedule.c:250-263 | in every run a signal wakes the thread of the best priority that blocked first |
| SchedRounds.SchedulePicksRoot | os/schedule.c:126-155 | on the best level schedule picks the root and moves it to the end, unless the other core owns it |
| SchedRounds.RoundGoesOn | os/schedule.c:126-155 | through any run of one core, or both strictly alternating, in which only levels above p in number are created, woken or signalled, time passes and alarms fire, the ring of p has rotated once for each call of schedule |
| SchedRounds.RoundRobin | os/schedule.c:143-148 | in any such run call k of schedule picks member k modulo the length of the ring |
| SchedRounds.RoundCoversAll | os/schedule.c:143-148 | in any such run with at least as many calls as members, each member is picked within the first round |
| SchedSleep.OnlyWokenMoves | os/schedule.c:250-346 | no step touches a waiting thread but the one that wakes it |
| SchedSleep.SleepsLongEnough | os/schedule.c:272-346 | over any run, the step that wakes a thread from sleep(ms) is the alarm's handler at or after the 32-bit tick sleep computed; at least ms milliseconds pass if that tick fits |
| SchedSleep.AlwaysInTime | os/schedule.c:286-342 | in every run, while somebody sleeps, the alarm has fired or is set no later than the first sleeper's tick, or than ten microseconds from now |
| SchedSleep.WakesInTime | os/schedule.c:323-346 | so if nothing else happens the first sleeper is awake by then |
| SchedStats.StatsExact | os/schedule.c:444-456 | the counters add up to the RUNNING and ACTIVE threads, of which at most two run |
| SchedEffects.ScheduleHasEffect | os/schedule.c:116-155 | schedule: with nobody active, idle and all rings as they were; with the best level's root on the other core, the thread after it and all rings as they were; otherwise the root, and only its ring moves on |
| SchedEffects.LaunchHasEffect | os/schedule.c:85-102 | init_scheduler: the root of the best level, whose ring moves on, or idle |
| SchedEffects.CreateHasEffect | os/schedule.c:182-195 | add_thread: the next id, with the priority asked for, in front of that level's ring, and nothing else |
| SchedEffects.BlockHasEffect | os/schedule.c:206-242 | sched_block up to its unlock: out of its ring, whose root is the thread after it, and into the list in order |
| SchedEffects.SleepHasEffect | os/schedule.c:272-315 | sleep up to its unlock: the same for the sleep list, with the tick modulo 2^32 and the alarm set to it iff the thread is first |
| SchedEffects.UnsleepHasEffect | os/schedule.c:323-342 | unsleep: the first sleeper in front of its level's ring, and the alarm set to the next tick or ten microseconds on |
| SchedEffects.SignalHasEffect | os/schedule.c:250-260 | sched_unblock: the first waiter in front of its level's ring |
| SchedEffects.KillHasEffect | os/schedule.c:349-368 | kill up to its schedule: out of its ring and gone, RunPt on the stub |
| SchedEffects.StepIff | os/schedule.c:85-407 | from any state of a run, an event leads to a state iff that state has the event's effect: the effects say all there is to say |
| SchedLimits.SecondScheduleIff | os/schedule.c:116-159 | schedule with a switch pending keeps the invariant iff the first choice was the thread RunPt names, or idle while RunPt names no running thread |
| SchedLimits.SecondScheduleReached | os/schedule.c:116-159 | a run of two threads and one core in which it does not |
| SchedGap.BlockGapSharesThread | os/schedule.c:243-246 | a signal and a schedule of the other core between sched_block's unlock and its schedule leave one thread on both cores, from a state a four-step run reaches |
| SchedGap.GapOpens | os/schedule.c:206-247 | right after the unlock of sched_block or sleep the caller's core owns nothing, all else is in order, and an immediate schedule keeps the invariant |
| SchedGap.GapIff | os/schedule.c:243-246 | the schedule that ends such a call keeps the invariant iff the caller's thread is not RUNNING again |
| SchedGap.GapRun | os/schedule.c:316-319 | the same after any steps of the other core in the gap, none of which can break more than that |
| SchedGap.SecondInitForgets | os/semaphore.c:9 | a reachable run after which it does not: the waiter is then in no list |
| KernelClass.Kernel.EnqueueThread | os/schedule.c:373-391 | the TCB's links, state and counter: it is the root of its level, in no other list, and the globals are those of the specification with every list linked |
| KernelClass.Kernel.DequeueThread | os/schedule.c:393-407 | the TCB's links and counter, for a thread that runs or does not: it is in no list afterwards and its link is NULL; one that is ACTIVE and alone stays the root, with a dead link |
| KernelClass.Kernel.PutBackThread | os/schedule.c:127-131 | a running thread is ACTIVE again and the counters follow |
| KernelClass.Kernel.FindPriority | os/schedule.c:135-138 | the loop stops, at the idle level at the latest, at the first level with an active thread |
| KernelClass.Kernel.ChooseFrom | os/schedule.c:143-148 | reading the links, the root is taken and moves on, or the TCB after it is taken while the root runs on the other core |
| KernelClass.Kernel.PickThread | os/schedule.c:133-155 | the best level's thread runs, NextRunPt names its TCB and the switch is pending, with the invariant; a root that runs on the other core stays the root |
| KernelClass.Kernel.DoSchedule | os/schedule.c:116-159 | the globals afterwards are those of the section, told as the effect of schedule, with the invariant and every list linked |
| KernelClass.Kernel.Reschedule | os/schedule.c:116-159 | on any core with no switch pending, in any reachable state, the effect of schedule on the globals |
| KernelClass.Kernel.InitScheduler | os/schedule.c:85-102 | the globals after a core's first choice, the root's move along its link included, with the invariant |
| KernelClass.Kernel.PendSVHandler | os/interrupts.c:186-189 | RunPt becomes NextRunPt and the switch is done |
| KernelClass.Kernel.AddThread | os/schedule.c:162-199 | 1 for a priority out of range, with the lock held, or no memory, with nothing changed; otherwise 0 and a thread with the next id and the priority asked for in front of that level; nothing but the new TCB joins the footprint |
| KernelClass.Kernel.CreateThread | os/schedule.c:182-195 | a new TCB with the next id and that priority is ready at the front of that level, and nothing but it joins the footprint |
| KernelClass.Kernel.InitSemaphore | os/semaphore.c:7-10 | nobody is blocked on a semaphore that is new or had no waiters, and no other list changes; it is a step of the state machine |
| KernelClass.Kernel.SchedBlock | os/schedule.c:206-247 | the caller's TCB goes from its ring to its place in the blocked list and its core has a new choice pending |
| KernelClass.Kernel.SchedUnblock | os/schedule.c:250-263 | the first waiter's TCB goes from the blocked list to the front of its level |
| KernelClass.Kernel.Sleep | os/schedule.c:272-320 | the caller's TCB goes from its ring to its place in the sleep list, the alarm is set to its tick if it is first, and its core has a new choice pending; sleep(0) does nothing |
| KernelClass.Kernel.Unsleep | os/schedule.c:323-346 | the first sleeper's TCB goes to the front of its level and the alarm is set to the next sleeper's tick, or ten microseconds on if that is nearer |
| KernelClass.Kernel.Kill | os/schedule.c:349-371 | the caller's TCB is in no list and not in use, RunPt is the stub, and its core has a new choice pending |
| KernelClass.Kernel.Stats | os/schedule.c:444-456 | the sums of the counters are the numbers of threads the cores own and of ACTIVE threads |
| KernelClass.Kernel.OneListEach | os/schedule.c:206-407 | a TCB in use is linked into the one list its state says, ring, sleep list or blocked list, and into no other |
| KernelRuns.CallableIff | os/schedule.c:116-371 | in a valid kernel each method can be called iff its event is enabled in the state machine |
| KernelRuns.Perform | os/schedule.c:85-371 | the method behind any enabled event makes exactly its step, in memory, with its effect, and leaves a kernel that can go on |
| KernelRuns.Run | os/schedule.c:85-371 | so does any run of events, from any valid kernel |
| KernelRuns.RunFromPowerUp | os/schedule.c:85-371 | every run from power-up is one of a kernel in memory, so the theorems about runs hold of its linked lists |
| KernelRuns.NoTcbShared | os/schedule.c:143-152 | two cores never run, or are about to run, the same TCB |
| Clock.TickAfterIff | os/schedule.c:281 | the 32-bit tick is the requested time iff that fits, and never later |
| Clock.TickIs | os/schedule.c:281 | for all times it is the requested time modulo 2^32 |
| SemaState.ParkOk | os/schedule.c:216-241 | blocking keeps a semaphore's list sorted and holding exactly its blocked threads |
| SemaState.WakeOk | os/schedule.c:254-260 | so does waking its head |
| BinarySemaphore.StepInv | hw/hwctrl.h:56-74 | every load, store and lock step keeps the invariant and is a step of one atomic lock: nobody's hold changes, or the free lock goes to the thread that steps, or it gives it back |
| BinarySemaphore.MutualExclusion | os/semaphore.c:13-30 | in every run no two threads are past b_wait at once, woken waiters racing newcomers included |
| BinarySemaphore.ValueTellsHolder | os/semaphore.c:13-30 | in every run the value is 1 iff some thread holds the semaphore |
| BinarySemaphore.SignalWakesFirst | os/semaphore.c:26-28 | a signal wakes the earliest waiter of the best priority, which then tests again |
| BinaryWakeups.WaitTakes | os/semaphore.c:13-17 | b_wait on a free semaphore, whatever the other threads are at, takes it and returns, if nobody interrupts |
| BinaryWakeups.WaitParks | os/semaphore.c:13-17 | on a held one it joins the list by its priority and changes nothing else |
| BinaryWakeups.SignalFrees | os/semaphore.c:21-30 | b_signal with nobody in the list frees it |
| BinaryWakeups.SignalWakes | os/semaphore.c:21-30 | otherwise it also takes the head out of the list, which will test again |
| BinaryWakeups.LookDecides | os/semaphore.c:26-28 | whoever holds the lock or the semaphore by then, the end of b_signal wakes the head of the list iff there is one |
| BinaryWakeups.LockUnseen | os/semaphore.c:13-30 | a step outside the lock does not depend on the lock or the value |
| BinaryWakeups.SignalHandsOver | os/semaphore.c:13-30 | a signal and the retry of the thread it woke hand the semaphore to the first waiter |
| BinaryWakeups.UnblocksBreakIff | os/semaphore.c:26-28 | wake-ups already decided on, in any order, each find a waiter iff they are no more than the waiters |
| BinaryWakeups.OneAtATimeNeverBreaks | os/semaphore.c:26-28 | if no thread looks at the list while another is between look and wake-up, no wake-up meets an empty list |
| BinaryWakeups.TwoSignalsBreak | os/semaphore.c:26-28 | otherwise one can: a reachable run of three threads |
| BinaryWakeups.MissedIff | os/semaphore.c:14-16 | a step leaves a waiter on a free semaphore with nobody about to test or wake iff it is a thread that enters the list while the value is 0 and nobody is awake |
| BinaryWakeups.NeverMissedIff | os/semaphore.c:13-30 | a run never does iff no step of it is such an entry |
| BinaryWakeups.NoMissedWakeup | os/semaphore.c:13-30 | none is if no value is cleared while a thread is on its way into the list |
| BinaryWakeups.WakeupMissed | os/semaphore.c:14-16 | otherwise a wake-up can be missed: a reachable run of two threads |
| CountingSemaphore.StepInv | os/semaphore.c:34-69 | every step keeps the invariant and is a step of one atomic counter: unchanged, plus one, or minus one when not zero; the test goes on to take a unit iff the value is not zero |
| CountingSemaphore.ValueConserved | os/semaphore.c:34-69 | in every run value = initial + signals - completed waits, and it is not negative |
| CountingSemaphore.NeverBreaks | os/semaphore.c:61-67 | look and wake-up under one lock: no wake-up meets an empty list |
| CountingSemaphore.SignalWakesFirst | os/semaphore.c:63-65 | a signal wakes the earliest waiter of the best priority, which then tests again |
| CountingCalls.WaitTakes | os/semaphore.c:34-53 | c_wait on a value that is not zero, whatever the other threads are at, takes one unit and returns, if nobody interrupts |
| CountingCalls.WaitParks | os/semaphore.c:34-46 | on zero it joins the list by its priority and changes nothing else |
| CountingCalls.SignalAdds | os/semaphore.c:57-69 | c_signal with nobody in the list adds one unit |
| CountingCalls.SignalWakes | os/semaphore.c:57-69 | otherwise it also takes the head out of the list, which will test again |
| CountingCalls.LockUnseen | os/semaphore.c:34-69 | a step outside the lock does not depend on the lock or the value |
| CountingCalls.SignalHandsOver | os/semaphore.c:34-69 | a signal and the retry of the thread it woke hand the unit to the first waiter |
| CountingSemaphore.PaidWaitsIff | os/semaphore.c:39-48 | every completed wait is paid for by the start value or a signal, in every run, iff the start value is not negative |
| CountingWakeups.MissedIff | os/semaphore.c:39-46 | a step leaves threads waiting with more units than threads about to take or pass on one iff it is a thread that enters the list while there is such a unit |
| CountingWakeups.NeverMissedIff | os/semaphore.c:34-69 | a run never does iff no step of it is such an entry |
| CountingWakeups.WakeupMissed | os/semaphore.c:41-43 | one can: a reachable run of two threads ends with one blocked, the other gone and the value 1 |
| SlotRing.FullEmptyIff | os/ipc.c:163-172 | the two comparisons say that size - 1 items and no item are unread |
| SlotRing.CountIsUnread | os/ipc.c:180-185 | fifo32_size between two steps is the number of values sent and not received |
| Spsc.StepInv | os/ipc.c:162-178 | every load and store of either side keeps the ring's invariant |
| Spsc.DeliversInOrder | os/ipc.c:162-178 | in every interleaving what was received is a prefix of what was sent, at most size - 1 values behind |
| Spsc.OffersArrive | os/ipc.c:162-169 | in every interleaving what was sent, with the value of the call under way, is the sequence of values fifo32_put was called with and did not refuse |
| Spsc.PutAlone | os/ipc.c:162-169 | a put that nobody interrupts, with fewer than size - 1 values unread, appends its value |
| Spsc.GetAlone | os/ipc.c:171-178 | a get that nobody interrupts, with a value unread, returns the oldest |
| Spsc.GetWaitsIff | os/ipc.c:172-174 | the loop of get goes on iff nothing is unread |
| Spsc.UnreadKept | os/ipc.c:166-167 | no step changes a slot that waits to be read |
| Spsc.GetsOldest | os/ipc.c:175-177 | a get loads a written slot and returns the oldest value not received |
| Spsc.RefusedIffFull | os/ipc.c:163-165 | a put is refused iff size - 1 values wait at its comparison |
| Fifo32Class.ItemsAreUnread | os/ipc.c:162-178 | the contents of the record are the values sent and not yet received |
| Fifo32Class.Fifo32.constructor | os/ipc.c:150-160 | a new FIFO is empty |
| Fifo32Class.Fifo32.Put | os/ipc.c:162-169 | appends and returns 0, or returns 1 and changes nothing iff size - 1 values are inside |
| Fifo32Class.Fifo32.Get | os/ipc.c:171-178 | returns and removes the oldest value; on an empty FIFO waits through any puts of the producer and returns the first one, or waits on |
| Fifo32Class.Fifo32.Size | os/ipc.c:180-185 | the number of values inside |
| BoundedFifo.StepInv | os/ipc.c:48-96 | every step of any putter or getter keeps the invariant |
| BoundedFifo.StepMovesSemaphores | os/ipc.c:48-96 | every step moves at most one of the three semaphores, as `CountingSemaphore.CounterStep` and `BinarySemaphore.StepInv` prove of theirs |
| BoundedFifo.CapacityConserved | os/ipc.c:48-96 | in every interleaving full + empty + calls under way = the capacity given to fifo_init |
| BoundedFifo.DeliversInOrder | os/ipc.c:48-96 | values leave in the order they were stored, never more than the capacity inside |
| FifoCalls.PutsArrive | os/ipc.c:48-64 | in every interleaving each call stores the value its own thread called it with: what was sent, and what callers still carry, is what fifo_put was called with |
| FifoCalls.PutAlone | os/ipc.c:48-64 | a put with room that nobody interrupts adds its value as the last |
| FifoCalls.GetAlone | os/ipc.c:82-97 | a get with a value inside that nobody interrupts takes the one at head |
| FifoCalls.MutexUnseen | os/ipc.c:48-97 | a step outside the mutex does not depend on it |
| FifoCalls.WaitsIff | os/ipc.c:49-83 | while no call is under way, a put waits iff the capacity is inside and a get iff nothing is |
| FifoCalls.PutThenGet | os/ipc.c:48-97 | a value put into an empty FIFO is the one the next get returns |
| BoundedFifo.UnreadKept | os/ipc.c:52-60 | no step changes a slot that waits to be read, with the byte size as the ring's modulus |
| BoundedFifo.SizeIs | os/ipc.c:132-135 | fifo_size is the values inside less those whose call is under way, and exact when none is |
| PeriodicModel.RunRootTasks | os/periodic.c:18-37 | running the root changes nothing in the list but that task's due time |
| PeriodicModel.RunRootSorted | os/periodic.c:21-37 | and keeps it sorted from the root |
| PeriodicModel.AddTasks | os/periodic.c:58-80 | adding a task keeps the others |
| PeriodicModel.AddKeepsIff | os/periodic.c:58-80 | the list stays sorted with the timer on its root iff the new task is not due before the root |
| PeriodicModel.DueTimesExact | os/periodic.c:18-19 | in every run the list is exactly the tasks created, and a task that ran k times is due at first + k periods |
| PeriodicModel.NeverEarly | os/periodic.c:9-44 | in every run whose additions are not due before the root, the timer runs the task that is due first and never early |
| PeriodicModel.EarlyIff | os/periodic.c:58-80 | from a sorted list with its timer right, a step lets some continuation without an earlier addition run a task early iff it adds a task due before the root |
| PeriodicModel.NeverEarlyIff | os/periodic.c:9-80 | at no point of a run can a task go early iff no addition of the run is due before the root |
| PeriodicModel.RunsInTime | os/periodic.c:9-44 | from a sorted list with its timer right, if nothing else happens, the root runs as soon as it is due |
| PeriodicModel.EarlyRun | os/periodic.c:67-69 | a reachable run in which a task runs early |
| PeriodicEffects.StepIff | os/periodic.c:9-80 | an event leads to a state iff that state has its effect, told by places in the list, times modulo 2^32 and the timer |
| PeriodicQueueClass.PeriodicQueue.FindPlace | os/periodic.c:29-32 | the search around the circle ends at the specified place |
| PeriodicQueueClass.PeriodicQueue.ScheduleBackground | os/periodic.c:9-44 | the links and times afterwards are those of the specification, on the same nodes, the circle is well formed, and the timer stands for the root |
| PeriodicQueueClass.PeriodicQueue.AddPeriodicTask | os/periodic.c:46-80 | the same for a new task on a node of its own with the old nodes kept, and whether the timer is armed; without memory nothing changes and the lock stays held |
| PeriodicRuns.Perform | os/periodic.c:9-80 | every event makes its step on the linked circle, with its effect; the nodes are the old ones and new ones |
| PeriodicRuns.RunFromPowerUp | os/periodic.c:9-80 | every run from power-up is one of a circle in memory |

## Left out

- KernelClass.Kernel.SchedBlock: the call and its schedule are one step, as are Sleep and Kill; `SchedGap` states what
  the gap between them allows.
- KernelClass.Kernel.DoSchedule: requires, as Reschedule does, that no switch is pending; `SecondScheduleIff` states what
  happens otherwise.
- KernelClass.Kernel.InitSemaphore: requires that nobody waits on the semaphore; `InitSemaphoreIff` states what happens
  otherwise.
- KernelClass.Kernel.DequeueThread: requires a thread on its ring, as its three callers pass it.
- The semaphores and the blocking FIFO are step machines on values, as their point is the interleaving; a class with
  methods would hide it.
- Whether a waiting thread is ever woken in general, and whether an alarm set in the past fires before the clock wraps.
- A tick that wrapped and becomes the first while the alarm's interrupt is pending: the interrupt stays pending, but the
  time the alarm register holds besides is not kept.
- The blocking FIFO after a wake-up of its mutex has met an empty list: `BinarySemaphore` proves the mutex to be one
  atomic lock only up to there, and `TwoSignalsBreak` shows that three threads can get there.
- The result of `sched_unblock` (`os/schedule.c:268`): a reschedule after a signal is possible at any time instead.
- What follows the return of `add_thread` or `add_periodic_task` with the lock held and interrupts off
  (`os/schedule.c:166`, `os/periodic.c:52`).
- The heap's lock inside `add_thread`, `kill` and `init_scheduler`, the memory of stacks and freed TCBs, and the unlocked
  look at the root in `free`.
- Stack pointers, registers and the two cores' use of one stack before PendSV; the idle thread and idle time.
- Clock readings past 2^32 in the periodic tasks, and overflow of the 16-bit and 32-bit counters.
- Where in memory a FIFO's slots lie (`fifo->size` counts bytes), element sizes other than those `fifo_put` copies.
- `calloc`, `fifo8_*`, `fifo_get_spinlock` and the non-blocking FIFO calls, which repeat functions modelled here.
- Memory is sequentially consistent; barriers are not modelled.
- Device registers, the UART, GPIO, the boot loader, the interpreter and the benchmarks.
