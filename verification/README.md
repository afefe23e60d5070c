# Verification of the kernel and the pager

A Dafny model of the two connected cores of this PandOS-style kernel, with proofs.

**The kernel.** The linked structures are modelled as they are in memory: one table of
process control blocks with queue, tree and semaphore fields (`PcbCode.PcbTable`), one
table of semaphore descriptors with its sorted list and its free list (`AslCode.Asl`), and
the nucleus, scheduler and interrupt handlers on top of them (`KernelCode.Kernel`). A
pointer is a slot number, NULL is -1 (0 for a semaphore address). All three are classes
whose methods store into arrays and fields as the C functions do. They are proved to carry
out the steps of a state machine over sequences, a forest and a map from semaphore
addresses to FIFO queues (`KernelState`): one event is one kernel entry, from the exception
to the next LDST, WAIT, HALT or PANIC. `KernelCode.Kernel.HandleAll` says that any sequence
of entries carried out on memory is a run of that machine, so what is proved about runs
holds of the memory, for runs that meet the condition on self-terminations stated below.

**Whole runs.** About all runs of the machine: where every process is (`KernelInv`,
`KernelSteps`, `KernelTheorems`), what each event leaves behind, from HALT and the next
process to result registers and families (`KernelOutcomes`), what semaphore values and
`softBlockedCount` mean (`Accounts`, with counters of past events that the kernel itself does
not keep), that PANIC is a sound deadlock verdict and exactly when a deadlock is missed
(`Deadlock`, `MissedDeadlock`), that round robin starves nobody (`Fairness`), and that
wake-ups go to the longest-waiting process (`WaitOrder`). `Killing` and `Forest` prove that
the recursion of `terminate_Process_rec` takes away exactly one subtree.

**The pager.** A second state machine (`PagerState`) with a phase for every user process.
All processes interleave; only the regions with interrupts disabled are single steps. User
accesses are events with the page number of their address, in segment 2 or segment 3.
`PagerInv` is the invariant of all runs. Three further laws (`PagerLaws`: the TLB agrees with
the page tables, faults are true, frames point back at their pages) hold under exact
conditions on the steps, and in every run whose accesses stay in segment 2 (`PagerRuns`).
In all runs: which processes end, which page-table entries and TLB slots an event changes
(`PagerOutcomes`), that waiting faults are served in their order of arrival and every one of
them is served (`PagerQueue`), and the exact sequence of flash operations (`PagerTransfers`).
`PagerCode.Vm` is the code over the swap table, the page tables and the TLB registers, proved
against the machine's steps; `PagerCode.Machine.HandleAll` says that any interleaving of
events carried out on that memory is a run of the machine.

MAXPROC, the initial semaphore values and the address of the device semaphores are
parameters. Integers are mathematical.

| file | contents |
|---|---|
| `Seqs`, `Queues` | sequences without repetition; the map of semaphore queues |
| `Rings`, `Trees`, `PcbCode` | pcb.c |
| `SelfTermination`, `SiblingRuns` | what outChild as written does over many self-terminations |
| `SemdList`, `AslCode` | asl.c |
| `Forest`, `KernelState`, `KernelInv`, `KernelSteps` | the kernel as a state machine and its invariant |
| `Killing`, `KernelMemory`, `KernelCode` | nucleousSystemCalls.c, scheduler.c, interrupts.c over memory |
| `KernelOutcomes`, `Accounts`, `Deadlock`, `MissedDeadlock`, `Fairness`, `WaitOrder`, `KernelTheorems` | theorems about runs of the kernel |
| `PageBits`, `PagerState`, `PagerInv`, `PagerLaws`, `PagerCode` | vmSupport.c, sysSupport.c |
| `PagerRuns`, `PagerOutcomes`, `PagerQueue`, `PagerTransfers`, `PagerSegments`, `WriteBack` | theorems about runs of the pager |

`dafny verify dfyconfig.toml` checks the project.

## Where the code does not do what it should

- `outChild` (src/pcb.c:211-224 with src/pcb.c:239-254) stores `p_prev_sib` as the parent's
  first child, and `unlinkChild` clears `p_prev_sib` before copying it to the next sibling.
  `Trees.OutChildRemovesLast` proves the exact condition: a child is removed properly if
  and only if it has no later sibling. `Trees.OutChildLosesSibling` is a concrete family
  that is damaged. `Trees.RepairedDetaches` proves that storing the next sibling instead and
  clearing last repairs every position. The kernel code below is modelled with `outChild` as
  written; a self-termination is therefore a step of `KernelCode.Kernel` only when the
  running process has no parent or is its parent's last child (`KernelCode.Handled`). The
  state machine's own `Terminate` step removes the process properly at any position.
- What follows from it: after children of one process have terminated themselves, in any
  number and order, the termination of their parent terminates one of them a second time if
  and only if the first child is still there and, of two neighbours behind it, the elder went
  before the younger (`SiblingRuns.TerminatedTwiceExactly`).
  `SelfTermination.SiblingTerminatedTwice` is such a run, with five terminations of four
  processes. For a single self-termination: it happens exactly to a child behind the first
  that has lost its back link, so never to a first child (`SelfTermination.TerminatedAgain`).
- `terminate_Process_rec` (src/nucleousSystemCalls.c:112-132) does not lower
  `softBlockedCount`, and a device interrupt always does (src/interrupts.c:142).
  `KernelTheorems.SoftBlockedCountLaw` states what the count then is, exactly. With nothing
  ready the scheduler panics if and only if that count is not positive
  (`Deadlock.VerdictExact`); a deadlock is missed if and only if more waiters were killed
  than device interrupts found none (`Deadlock.DeadlockMissedExactly`).
  `MissedDeadlock.SchedulerMissesDeadlock` is a run of eight events after boot that ends in
  WAIT although only a process on an ordinary semaphore is left.
- `uTLB_RefillHandler` looks the address up by `ENTRYHI_GET_VPN` (src/sysSupport.c:66-74),
  which drops the two segment bits, and writes the entry found at `tlbIndex`
  (src/sysSupport.c:35-46). An access to segment 3 whose other bits are those of a page
  therefore writes that page's entry, which the TLB may already hold.
  `PagerSegments.SecondCopy` is a run of two accesses after which the TLB holds an entry
  twice. `PagerLaws.RefillTlb` gives the exact condition for one refill, and
  `PagerRuns.LawHoldsExactlyWhen` for whole runs and all three laws.
  `PagerSegments.ResidentPageFaults` and `PagerSegments.FrameWithoutPage` go on to a page
  that faults while it is resident and to two frames that both name it.
  `PagerRuns.Segment2IsSafe` proves that nothing of this happens while accesses that miss the
  TLB stay in segment 2.
- `writeFromPoolToDev` adds FRAMEPOOLSTART to the frame number in an entryLO, which is
  absolute already (src/vmSupport.c:244, with src/vmSupport.c:273-274). In every run the
  address of a write-back is outside the frame pool (`WriteBack.WriteBackMissesPool`). Without
  the addition it is the address of the frame that is emptied, in every run within segment 2
  (`WriteBack.RepairedWriteBack`).

## Model

| member | source | states |
|---|---|---|
| `Rings.RingLinksInverse` | src/pcb.c:92-163 | next and previous links are inverse to each other all around a process queue |
| `Rings.LinkedRing` | src/pcb.c:97-103 | the stores of an insertion behind the tail turn a ring of a queue into a ring of the queue with the process at its end, and touch no other slot |
| `Rings.UnlinkedRing` | src/pcb.c:228-235 | unlinking any member leaves a ring of the others in their order |
| `PcbCode.PcbTable.InitPcbs` | src/pcb.c:14-22 | the free list is a ring of all slots in table order |
| `PcbCode.PcbTable.FreePcb` | src/pcb.c:26-41 | the process joins the end of the free list, processCount falls, other slots keep their contents; NULL changes nothing |
| `PcbCode.PcbTable.AllocPcb` | src/pcb.c:45-71 | the first free slot is taken and cleared except for p_semAdd, processCount rises; NULL and no change when none is free |
| `PcbCode.PcbTable.InsertProcQ` | src/pcb.c:92-104 | appends to the queue, the returned tail pointer included |
| `PcbCode.PcbTable.HeadProcQ` | src/pcb.c:108-115 | the oldest member, NULL for an empty queue |
| `PcbCode.PcbTable.RemoveProcQ` | src/pcb.c:119-132 | takes the oldest member, the rest keeps its order; NULL and no change when empty |
| `PcbCode.PcbTable.OutProcQ` | src/pcb.c:136-163 | takes exactly p from any position, keeping the others' order; NULL and no change when p is not there; the search ends |
| `PcbCode.PcbTable.InsertChild` | src/pcb.c:173-191 | the table then holds the forest with p as the last child of its parent |
| `PcbCode.PcbTable.RemoveChild` | src/pcb.c:195-207 | takes out the first child, the table then holds the forest without that link; NULL and no change without children |
| `PcbCode.PcbTable.OutChild` | src/pcb.c:211-224 | NULL and no change without a parent; otherwise the table holds the forest without p's link if and only if p had no later sibling |
| `Trees.OutChildRemovesLast` | src/pcb.c:211-254 | the exact condition under which the stores of outChild remove a child properly, for every table and forest |
| `Trees.OutChildLosesSibling` | src/pcb.c:217-220 | a family whose parent becomes childless when the elder of two children is removed |
| `Trees.RepairedDetaches` | src/p1test.c:276-310 | with the two lines repaired, a child at any position is removed and the rest of the forest kept |
| `Trees.RemoveChildDetaches` | src/pcb.c:195-207 | the stores of removeChild take the first child out of a forest and change tree links only |
| `SelfTermination.OutChildLeaves` | src/pcb.c:211-254 | a self-termination leaves a list of children that ends, without the process unless it was behind the first child and had lost its back link |
| `SelfTermination.TerminatedAgain` | src/nucleousSystemCalls.c:118-122 | the parent's loop over removeChild then terminates the process again if and only if it was such a child |
| `SelfTermination.SiblingTerminatedTwice` | src/nucleousSystemCalls.c:106-132 | three children, of which the second and then the third terminates itself: the parent's termination takes the third again |
| `SiblingRuns.TerminatedTwiceExactly` | src/nucleousSystemCalls.c:106-132 | for any number and order of self-terminations of children of one process: some child is terminated twice if and only if the first child is still there and two neighbours behind it went in the order of their creation |
| `SemdList.FindDecides` | src/asl.c:50-59 | the search position decides whether an address is active |
| `SemdList.InsertedChain` | src/asl.c:109-114 | linking a descriptor behind the found position keeps the list strictly sorted and adds exactly that address |
| `SemdList.ExcisedChain` | src/asl.c:128-135 | unlinking a descriptor keeps the list sorted and removes exactly that address |
| `AslCode.Asl.InitASL` | src/asl.c:18-47 | no semaphore is active, and every descriptor but the two sentinels is free |
| `AslCode.Asl.FindSemInActiveList` | src/asl.c:50-59 | the last element below the address, for every address, also above the sentinel's |
| `AslCode.Asl.NewSemd` | src/asl.c:62-74 | takes the head of the free list; NULL when there is none |
| `AslCode.Asl.InsertBlocked` | src/asl.c:94-118 | the process joins the end of the address's queue, which is created if need be; TRUE and no effect exactly when that needs a descriptor and none is free |
| `AslCode.Asl.RemoveBlocked` | src/asl.c:121-142 | takes the oldest waiter and clears its p_semAdd; a queue left empty is no longer active and its descriptor is free |
| `AslCode.Asl.OutBlocked` | src/asl.c:145-165 | takes the process out of the queue of its p_semAdd wherever it is, NULL and no change if it is in none |
| `AslCode.Asl.HeadBlocked` | src/asl.c:168-181 | the oldest waiter of any address, NULL if there is none |
| `ForestSpec.PostOrderIsSubtree` | src/nucleousSystemCalls.c:112-132 | the order of termination lists exactly the processes that descend from the root |
| `ForestSpec.PostOrderNoDup` | src/nucleousSystemCalls.c:112-132 | and lists each of them once |
| `ForestSpec.PostOrderBottomUp` | src/nucleousSystemCalls.c:112-132 | and lists each of them after its own children |
| `ForestSpec.AdoptKeepsForest` | src/pcb.c:173-191 | a new child keeps parent and child links inverse and the forest free of cycles |
| `ForestSpec.DetachKeepsForest` | src/pcb.c:195-224 | so does removing a child; its parent's other children keep their order |
| `Killing.PeelFirstChild` | src/nucleousSystemCalls.c:120-122 | a subtree is its first child's subtree followed by what is left under the root once that is gone |
| `Killing.KillTwice` | src/nucleousSystemCalls.c:120-131 | terminating two groups one after the other is terminating them together: queues, semaphores, forest and free list |
| `Killing.KillDetached` | src/nucleousSystemCalls.c:118 | leaving the parent first changes neither the subtree nor the outcome |
| `Killing.KillBlocked` | src/nucleousSystemCalls.c:124-131 | raising the semaphore, leaving its queue and joining the free list is the termination of a blocked process without relatives |
| `Killing.KillUnblocked` | src/nucleousSystemCalls.c:127-131 | leaving the ready queue, if in it, and joining the free list is the termination of one that is not blocked |
| `KernelInv.EachInOnePlace` | src/pcb.c:26-71 | under the invariant a process is free, ready, blocked or running, and no two of these, and in the queue of its p_semAdd only |
| `KernelInv.DescriptorsSuffice` | src/asl.c:94-118 | a process outside all queues leaves a descriptor unused, by the pigeonhole principle |
| `KernelSteps.StepKeepsInv` | src/nucleousSystemCalls.c:81-218 | every kernel entry keeps the invariant, with termination taking the process out of its parent's list at any position |
| `KernelSteps.BootInv` | src/init.c:40-54 | main(), which clears the clock semaphore, establishes it |
| `KernelSteps.KillShape` | src/nucleousSystemCalls.c:112-132 | terminating a set of processes that contains its members' children keeps the invariant |
| `KernelCode.Kernel.Boot` | src/init.c:40-80 | initialisation, the clock semaphore's included, first process and first dispatch on memory lead to the machine's boot state |
| `KernelCode.Kernel.CreateProcess` | src/nucleousSystemCalls.c:81-101 | on memory, does the machine's creation step |
| `KernelCode.Kernel.Passeren` | src/nucleousSystemCalls.c:135-146 | on memory, does the machine's P on the semaphore at any address, a device's too |
| `KernelCode.Kernel.Verhogen` | src/nucleousSystemCalls.c:149-160 | on memory, does the machine's V on the semaphore at any address, a device's too |
| `KernelCode.Kernel.WaitForIO` | src/nucleousSystemCalls.c:167-176 | on memory, does the machine's IOWAIT for every line that getSemIndex knows; for the timer line on the clock semaphore |
| `KernelCode.Kernel.WaitForClock` | src/nucleousSystemCalls.c:190-201 | on memory, does the machine's CLOCKWAIT step |
| `KernelCode.Kernel.Sleep` | src/nucleousSystemCalls.c:211-218 | blocks the running process, ignoring the result of insertBlocked, and schedules |
| `KernelCode.Kernel.TerminateRec` | src/nucleousSystemCalls.c:112-132 | the recursion ends, and has terminated exactly the subtree of its argument, in post-order, on memory; NULL changes nothing |
| `KernelCode.Kernel.TerminateProcess` | src/nucleousSystemCalls.c:106-110 | on memory, does the machine's termination step |
| `KernelCode.Kernel.Schedule` | src/scheduler.c:15-37 | on memory, does the machine's scheduling: what it decides is stated by KernelOutcomes.ModeExactly and KernelOutcomes.NextToRun |
| `KernelCode.Kernel.HandlePLTInterrupt` | src/interrupts.c:74-85 | on memory, does the machine's time-slice step |
| `KernelCode.Kernel.HandleIntervalTimerInterrupt` | src/interrupts.c:87-100 | the draining loop makes all clock waiters ready in order, lowers softBlockedCount by their number and clears the semaphore |
| `KernelCode.Kernel.ReleaseSemAndUpdateStatus` | src/interrupts.c:140-153 | on memory, does the machine's device wake-up |
| `KernelCode.Kernel.GetSemIndex` | src/interrupts.c:181-207 | eight indices each for disks, flash devices, networks, printers, terminal receivers and terminal transmitters, in this order, by device number; the clock's index for the timer line; panics on all other lines |
| `KernelCode.Kernel.Handle` | src/interrupts.c:64-71 | each kernel entry on memory is one step of the machine, interrupts ending with the current process or the scheduler |
| `KernelCode.Kernel.HandleAll` | src/scheduler.c:15-45 | any sequence of entries on memory is a run of the machine |
| `KernelCode.RunKernel` | src/init.c:40-54 | from zeroed memory, main() and any sequence of entries is a run from the machine's boot state |
| `KernelTheorems.EveryProcessInOnePlace` | src/scheduler.c:15-45 | after main() and any events of the machine: each PCB in one place, in the queue of its p_semAdd only, processCount plus free list is MAXPROC, no cycle in the forest |
| `KernelTheorems.DescriptorsNeverRunOut` | src/nucleousSystemCalls.c:211-218 | in every run, blocking the running process succeeds, so that ignoring insertBlocked's result is sound |
| `KernelTheorems.SemaphoreLaw` | src/nucleousSystemCalls.c:135-160 | in every run a semaphore of value s has max(0, -s) waiters, and completed P's never exceed its initial value plus its V's, even when waiters are killed |
| `KernelTheorems.NotificationsComeFirst` | src/p3test.c:96-107 | a semaphore that starts at 0 lets m P's through only after m V's |
| `KernelTheorems.DeviceSemaphoreLaw` | src/nucleousSystemCalls.c:167-201 | in every run a device semaphore with initial value v has v - s waiters, the clock's max(0, -s) |
| `KernelTheorems.SoftBlockedCountLaw` | src/interrupts.c:140-153 | in every run softBlockedCount is the number of device and clock waiters, plus killed ones, minus device interrupts without a waiter |
| `KernelTheorems.BootIsGoodStart` | src/init.c:40-54 | after main() one process runs and the clock's semaphore is 0, and it is a start state for these laws when the semaphores have the values they assume |
| `KernelTheorems.CreationAddsOneChild` | src/nucleousSystemCalls.c:81-101 | in every run, creation makes one free PCB the last child of the running process and the last ready one, or reports -1 and changes nothing else |
| `KernelTheorems.TerminationTakesTheSubtree` | src/nucleousSystemCalls.c:106-132 | in every run, the machine's termination frees exactly the descendants, each once, takes them off every queue, and raises each semaphore by the waiters it loses |
| `KernelTheorems.SurvivorsKeepOrder` | src/pcb.c:136-163 | in every run, the waiters that survive a termination keep their order |
| `KernelTheorems.ChildrenComeOutInOrder` | src/pcb.c:173-207 | children inserted one by one come out of removeChild in the order of insertion |
| `KernelOutcomes.ModeExactly` | src/scheduler.c:15-37 | in every run, after any event: HALT if and only if no process is left; the timer handler's panic if and only if it interrupts an idle machine; else WAIT or the scheduler's panic, by softBlockedCount, if and only if processes are left and all are blocked; and a process runs if and only if one can |
| `KernelOutcomes.StopsWithCurrent` | src/scheduler.c:23-35 | in every run, HALT and the scheduler's panic leave currentProcess as it was, NULL if it has just gone to sleep |
| `KernelOutcomes.NextToRun` | src/interrupts.c:64-85 | in every run, a process that an event neither blocks nor terminates keeps the processor to the end of its time slice; otherwise the first of the ready processes left runs, and the others stay ready in order |
| `KernelOutcomes.ResultsExactly` | src/nucleousSystemCalls.c:81-101 | in every run, an event changes a creator's result register (0, or -1 without a free PCB), that of a process woken by a device (its status), and no other |
| `KernelOutcomes.FamiliesExactly` | src/nucleousSystemCalls.c:81-101 | in every run, an event other than a termination changes no process's parent or children, except that a creation gives the creator one more, last, child |
| `KernelOutcomes.SurvivorsKeepFamily` | src/nucleousSystemCalls.c:106-132 | in every run, survivors of a termination keep their parents and their children in order, less the process that terminated |
| `KernelOutcomes.FreedBottomUp` | src/nucleousSystemCalls.c:112-132 | in every run, termination appends the descendants to the free list, each after its children, the running process last |
| `Accounts.SummaryHolds` | src/nucleousSystemCalls.c:81-218 | what each kind of event does to the queue and the value of any one semaphore and to softBlockedCount |
| `Accounts.BooksAlways` | src/interrupts.c:87-153 | all semaphore and softBlockedCount laws hold in every run |
| `Deadlock.PanicMeansDeadlock` | src/scheduler.c:23-35 | if device interrupts answer distinct IOWAITs, then at a scheduler PANIC every live process is on an ordinary semaphore and no further interrupts make one ready |
| `Deadlock.SoftCountExact` | src/scheduler.c:27-35 | softBlockedCount is the number of device and clock waiters if and only if as many waiters were killed as device interrupts found none |
| `Deadlock.VerdictExact` | src/scheduler.c:23-35 | in every run, with nothing ready and processes left, the scheduler panics if and only if waiters plus killed waiters do not exceed interrupts that found none |
| `Deadlock.DeadlockMissedExactly` | src/scheduler.c:27-35 | in every run, a deadlock is answered by WAIT instead of PANIC if and only if more waiters were killed than interrupts found none |
| `MissedDeadlock.SchedulerMissesDeadlock` | src/nucleousSystemCalls.c:112-132 | eight events after boot end in WAIT with one process left, blocked on an ordinary semaphore, and no device or clock waiter |
| `Fairness.OneStepForward` | src/interrupts.c:74-98 | no event moves a ready process back, and every dispatch moves it forward by one |
| `Fairness.BoundedBypass` | src/scheduler.c:17-21 | a process at position k of the ready queue is running after k+1 dispatches at the latest, or has been terminated |
| `WaitOrder.SemIndexInjective` | src/interrupts.c:181-207 | two devices (and terminal directions) never share a semaphore, and none has the clock's |
| `WaitOrder.SemIndexLayout` | src/interrupts.c:181-207 | the index of a device is the one in its block of eight, and no other |
| `WaitOrder.DeviceWordsApart` | src/init.c:23 | the 49 semaphores are words that do not overlap, inside one array |
| `WaitOrder.ArrivalOrderAlways` | src/pcb.c:92-132 | in every run each queue is in order of arrival |
| `WaitOrder.DeviceWakesLongestWaiting` | src/interrupts.c:140-153 | in every run a device interrupt with a waiter wakes exactly that device's longest-waiting process, with the status in v0 |
| `WaitOrder.VerhogenWakesLongestWaiting` | src/nucleousSystemCalls.c:149-160 | in every run a V with a waiter makes exactly the longest-waiting process ready, at the end of the ready queue |
| `WaitOrder.TickWakesInOrder` | src/interrupts.c:87-100 | in every run a tick appends all clock waiters to the ready queue in the order of their arrival |
| `PageBits.PageNumRoundTrip` | src/vmSupport.c:99-122 | the entryHI built for a page decodes to its index and asid, index 31 included |
| `PageBits.VpnIdentifiesIndex` | src/sysSupport.c:48-62 | within a table, page numbers are distinct; over all tables, entryHI words are |
| `PageBits.SearchFinds` | src/sysSupport.c:66-74 | the search finds page i for its own address in segment 2 and for the one in segment 3 that differs in the segment bits alone |
| `PageBits.WordsAgree` | src/vmSupport.c:117-121 | shifts and masks on 32-bit words compute the arithmetic used in the model |
| `PagerInv.StepKeepsInv` | src/vmSupport.c:126-176 | every step of every process, with accesses to both segments, keeps the pager's invariant |
| `PagerInv.NextFrameIsFifo` | src/vmSupport.c:180-190 | the frame chosen after n loads is n mod POOLSIZE |
| `PagerLaws.RefillTlb` | src/sysSupport.c:35-46 | a refill keeps the TLB a cache with single copies if and only if it finds no copy outside the slot it overwrites |
| `PagerLaws.StepKeepsLaw` | src/sysSupport.c:35-46 | a step keeps each of the three laws if and only if it meets that law's demand: no second copy made, no invalid second copy left when a page is mapped, no page mapped that is still valid |
| `PagerLaws.FaultMeansInvalid` | src/sysSupport.c:35-46 | with true faults, a page that faults as invalid is not resident |
| `PagerLaws.AbsentStep` | src/vmSupport.c:126-157 | with true faults, a page that a process waits for stays absent until it is mapped |
| `PagerRuns.LawHoldsExactlyWhen` | src/sysSupport.c:35-46 | each law holds all through a run if and only if every step meets its demand |
| `PagerRuns.Segment2IsSafe` | src/sysSupport.c:66-74 | all three laws hold all through every run whose accesses that miss the TLB are to segment 2 |
| `PagerRuns.FaultsFindTheirPage` | src/sysSupport.c:48-62 | in every run, with accesses to both segments, the page of a fault is in the table, so that no process ends while it holds the swap semaphore |
| `PagerOutcomes.MissOutcome` | src/sysSupport.c:35-46 | in every run, a miss on a page number whose low 18 bits no entry of the table has ends the process and changes nothing else; otherwise the entry that has them is in the TLB at the old tlbIndex, and nothing else changes but the index |
| `PagerOutcomes.FaultOutcome` | src/sysSupport.c:48-62 | in every run, a fault is handled for the entry of exactly the page number accessed |
| `PagerOutcomes.DeadExactly` | src/sysSupport.c:77 | in every run, a user process has ended if and only if it exited or missed on a page that is not in its table |
| `PagerOutcomes.SlotsInTurn` | src/sysSupport.c:29-32 | in every run, the n-th refill writes TLB slot n mod TLBSIZE |
| `PagerOutcomes.EntriesExactly` | src/vmSupport.c:160-176 | in every run, a step changes a page's table entry in two cases only: the page loaded POOLSIZE faults ago loses its valid bit, and the page loaded last gets the frame of its turn, valid |
| `PagerOutcomes.SlotsExactly` | src/vmSupport.c:205-219 | in every run, a step other than a refill changes only the first TLB slot for such a page, to not valid or to the page's new entry |
| `PagerQueue.FirstComeFirstServed` | src/vmSupport.c:134-136 | in every run and interleaving, processes get past P(swapSem) in the order in which they started to wait, and while one waits another is between P and V and can go on |
| `PagerQueue.EntersInTurn` | src/vmSupport.c:134-136 | in every run, a process with k waiters in front of it is between P and V at some moment if and only if there are more than k V's |
| `PagerQueue.EveryFaultIsServed` | src/vmSupport.c:126-157 | in every run, a process that waits on the swap semaphore does its V with its page valid, after at most 56 steps of processes between P and V |
| `PagerTransfers.TransfersExactly` | src/vmSupport.c:238-260 | in every run, the flash operations are, fault by fault: a write of the page loaded POOLSIZE faults earlier, if any, to its own device and block, then a read of the new page from its own |
| `PagerTransfers.ReadsAndWrites` | src/vmSupport.c:143-157 | in every run, with none in flight, the pages read are the pages loaded, in order, and the pages written are all of these but the last POOLSIZE, in order |
| `WriteBack.WriteBackMissesPool` | src/vmSupport.c:244 | in every run, the RAM address of a write-back is no frame's |
| `WriteBack.RepairedWriteBack` | src/vmSupport.c:244 | without the addition of FRAMEPOOLSTART it is the address of the frame being emptied, in every run that maps no page that is still valid, so within segment 2 |
| `PagerSegments.SecondCopy` | src/sysSupport.c:72 | two accesses after initialisation put one entry into two TLB slots |
| `PagerSegments.ResidentPageFaults` | src/sysSupport.c:72 | a run after which an access to a resident page faults |
| `PagerSegments.FrameWithoutPage` | src/sysSupport.c:72 | a run after which two frames name one page and no entry maps the first of them |
| `PagerRuns.ValidPagesOwnTheirFrames` | src/vmSupport.c:263-275 | in every run a valid entry's frame has a swap entry naming it, and no two valid entries share a frame |
| `PagerRuns.FramesAndPagesMatch` | src/vmSupport.c:143-157 | in every run that maps no page that is still valid, so in every run within segment 2, and with no fault in flight: a frame is occupied if and only if a valid entry maps it, namely the one in the swap table |
| `PagerRuns.TlbAgrees` | src/vmSupport.c:205-219 | in every run whose refills make no second copy, so in every run within segment 2, a TLB entry for a page is equal to the page's table entry, and is the only one |
| `PagerRuns.FaultingPageIsAbsent` | src/vmSupport.c:126-141 | in every run that leaves no invalid second copy of a mapped page, so in every run within segment 2, a page that faults, or whose fault is waiting to be served, is in no frame |
| `PagerRuns.OneFaultAtATime` | src/vmSupport.c:134-136 | at most one process is between P and V of the swap semaphore |
| `PagerRuns.FrameIsStable` | src/vmSupport.c:143-157 | no step of any process changes frameIndexToReplace between the choice and the update of the page table, which reads it |
| `PagerRuns.ReplacementIsFifo` | src/vmSupport.c:180-190 | the n-th fault takes frame n mod POOLSIZE: unused at first, then always the one holding the page loaded longest ago |
| `PagerRuns.OccupiedIsPrefix` | src/vmSupport.c:78-83 | the occupied frames are the first ones, as many as pages loaded |
| `PagerRuns.FaultMapsFrameOfTurn` | src/vmSupport.c:170-176 | serving the n-th fault maps its page to frame n mod POOLSIZE |
| `PagerRuns.BlocksIdentifyPages` | src/vmSupport.c:238-268 | in every run, two flash operations use the same device and block if and only if they are for the same page |
| `PagerCode.Vm.InitUprocPagetable` | src/vmSupport.c:113-122 | a process's table gets the entryHI of each of its pages, not valid; other tables keep theirs |
| `PagerCode.Vm.GetMissingPage` | src/sysSupport.c:66-78 | finds the entry with the low 18 bits of the page number, -1 exactly when no entry has them |
| `PagerCode.Vm.UpdateFrameIndexToReplace` | src/vmSupport.c:180-190 | chooses the machine's next frame |
| `PagerCode.Vm.MarkInvalid` | src/vmSupport.c:160-167 | does the machine's eviction step: the old page's table entry and TLB copy become invalid |
| `PagerCode.Vm.MarkTLBEntryNotValid` | src/vmSupport.c:205-219 | clears the valid bit of the first matching TLB entry, if any, and changes no other |
| `PagerCode.Vm.UpdateEntryInTLB` | src/vmSupport.c:279-291 | replaces the first matching TLB entry, if any, and changes no other |
| `PagerCode.Vm.WriteFromPoolToDev` | src/vmSupport.c:238-248 | does the machine's write to the device and block in the swap entry; which page that is, and when, is stated by PagerTransfers.TransfersExactly |
| `PagerCode.Vm.WriteFromDevToPool` | src/vmSupport.c:250-260 | reads from the device and block decoded from the page's entryHI |
| `PagerCode.Vm.UpdateSwapTableEntry` | src/vmSupport.c:263-268 | the swap entry names the page loaded |
| `PagerCode.Vm.MarkValidAndUpdateTLB` | src/vmSupport.c:170-176 | the page's entry and its TLB copy map the chosen frame |
| `PagerCode.Vm.UTlbRefillHandler` | src/sysSupport.c:35-46 | searches the table, writes the entry found at the round-robin index and advances it; nothing when the search fails |
| `PagerCode.Vm.HandleTLBInvalid` | src/vmSupport.c:143-157 | the handler run through finds its page and is the sequence of the machine's steps |
| `PagerCode.ServedByAdvancing` | src/vmSupport.c:143-157 | and that whole sequence, choice and eviction included, is what the machine does when only this process advances |
| `PagerCode.EntryWords` | src/vmSupport.c:270-275 | the entryLO words that the code stores encode the frame and valid bit of the machine's eviction, mapping and initialisation |
| `PagerCode.Machine.Handle` | src/vmSupport.c:126-176 | each event on memory, the search and the swap semaphore included, is one step of the pager machine, with the effects that PagerOutcomes and PagerQueue state |
| `PagerCode.Machine.HandleAll` | src/vmSupport.c:126-176 | any interleaving of events of all processes on memory is a run of the pager machine |
| `PagerCode.InitPager` | src/vmSupport.c:78-122 | initialisation of the swap table and all page tables leads to the machine's initial state |
| `PagerCode.RunPager` | src/vmSupport.c:126-176 | from initialisation, any interleaving on memory is a run from the machine's initial state |

## Left out

- KernelCode.Kernel.TerminateRec: requires that its argument has no parent or no later sibling, because outChild as written removes no other child properly (src/pcb.c:219, src/pcb.c:245-249).
- KernelCode.Kernel.TerminateProcess: has the same condition on the running process, for the same reason.
- KernelCode.Kernel.Handle: has the same condition when the event is a self-termination.
- KernelCode.Kernel.HandleAll: has the same condition at each self-termination of the sequence; the theorems about runs of the machine do not.
- KernelCode.RunKernel: has the same condition, for the same reason.
- KernelSteps.StepKeepsInv: is about the machine's termination, which takes a process out of its parent's list at any position; on memory it applies to the runs of HandleAll.
- KernelTheorems.EveryProcessInOnePlace: is about runs of that machine, for the same reason; what self-terminations outside the condition do is stated by SelfTermination and SiblingRuns.
- KernelTheorems.TerminationTakesTheSubtree: is about that machine too.
- KernelOutcomes.SurvivorsKeepFamily: is about that machine too.
- KernelOutcomes.FreedBottomUp: is about that machine too.
- SiblingRuns.TerminatedTwiceExactly: is about self-terminations of children of one process, with no other event that changes their list in between.
- AslCode.Asl.InsertBlocked: excludes the address 0x7FFFFFFF, for which the code would use the queue of its own sentinel; no aligned semaphore has that address.
- AslCode.Asl.RemoveBlocked: excludes the address 0x7FFFFFFF, for which the code would free its own sentinel.
- Fairness.BoundedBypass: counts dispatches; that the timer makes them happen is hardware.
- PagerQueue.EveryFaultIsServed: counts steps of the processes between P and V; that the kernel gives them the processor and the flash devices answer is not part of the pager machine.
- PagerCode.Vm.HandleTLBInvalid: is the handler without interleaving; interleaved, its parts are the steps of PagerCode.Machine.HandleAll.
- The pager's P and V on the swap semaphore are steps of the pager machine, with a FIFO queue as the kernel's; the two machines are not composed into one.
- IOWAIT on the interval timer's line is not an event of the machine; KernelCode.Kernel.WaitForIO has it. IOWAIT on a device number above 7 and on lines that getSemIndex answers with PANIC is in neither.
- In runs of the machine the device semaphores are not arguments of P and V; KernelCode.Kernel.Passeren and KernelCode.Kernel.Verhogen take them. The addresses 0 and 0x7FFFFFFF are in neither.
- Addresses of user semaphores are taken to be distinct words; device semaphores are words of their own.
- GETTIME, GETSUPPORTPTR, pass-up of other exceptions, register and state copies other than v0, CPU-time accounting (src/interrupts.c:122 sets startT from another clock).
- Device registers, acknowledgement, decoding of interrupt causes, and the terminal and printer loops of src/supportSystemCalls.c.
- Contents of pages. Flash operations carry device, block and direction; the RAM address of a write-back is modelled apart, by WriteBack.
- The macros that take fields out of entryHI and entryLO; their header is not part of this model, which takes entryLO's frame number to be the word shifted right by 12.
- Modified-page exceptions (src/vmSupport.c:131).
- Accesses outside segments 2 and 3, which raise an address error instead of a TLB exception.
- Several TLB entries for one address: the first is taken to answer, for TLBP and for accesses alike.
- Reuse of an address-space identifier: each user process starts once.
- Wrap-around of counters and of semaphore values.
- src/initSupp.c, getFreeAsid, removePagesFromTLB, setSwapFloor and the test programs, apart from what they require of the core.
