# K0 in Dafny

A model of the K0 capability microkernel and proofs about it: tasks and synchronous IPC, kernel and user page tables,
capabilities, boot, and the device tree parser with its printer.

The kernel runs on one core with interrupts masked, so every kernel entry is one atomic step.  The model has three layers.

* **Steps on values.**  `Ipc.Next` is one entry on the tasks, with queues as sequences.  `Syscalls.Step` is one entry on the
  whole machine: tasks, root CNode and physical memory, with the user free to change its registers and to store through
  every page it can write.
* **The code.**  Classes hold the fields the kernel updates in place, and their loops and updates are proved to compute the
  steps: `IpcMachine.Machine` (one `next` field shared by all queues), `Paging.Pool` (table array, link log and rollback),
  `UserMemory.Phys` (frame window and user tables), `Caps.CNode` (slot array), `Kernel.Machine` (system call handlers over
  all of these), `FdtParser.BootInfo` and `FdtBuilder.Builder`.
* **Theorems** about all inputs, all reachable states and all runs.  `IpcOutcomes` and `Outcomes` say what each entry does as
  relations between two states that use the numbers of the binary interface and none of the step functions.

| files | content |
|---|---|
| `Abi` `Tasks` `Ipc` `IpcMachine` | tasks, endpoints, scheduler; the steps and the linked implementation |
| `IpcEffects` `IpcOutcomes` `IpcRuns` `IpcMessages` `IpcCalls` `IpcWaiting` `IpcStalls` `IpcSpaces` | what steps touch and do; results over runs |
| `Bits` `Descriptors` `Tables` `Tallies` `Paging` | descriptors, the four-level walk, the levelled forest, counting tables, the kernel table pool |
| `UserSpace` `UserMemory` `UserPages` `Spawn` | the user half: run-time walkers, boot builder, ownership, the root task |
| `Caps` `Retype` `Window` | filling the CNode, carving objects, choosing the boot window |
| `Syscalls` `Ownership` `OwnershipRuns` `Answers` `Outcomes` `Failures` `Stalls` `Kernel` `Startup` | the whole machine, its joint invariant, return codes and outcomes, stalls, dispatch and boot |
| `FdtBytes` `Fdt` `FdtPaths` `FdtAnswers` `FdtParser` | the parser, its path-based meaning, its errors and its limits |
| `FdtPrinter` `FdtRoundTrip` `FdtNoise` `FdtBoards` `FdtBoardTrip` `FdtBuilder` | the printer, noise, and the round trips |

The granule (4 KiB or 16 KiB) and the length of the table pool are parameters.  Descriptors are built with an exact bitwise
or, and read with an exact bitwise and, on natural numbers.  A table and a page descriptor have the same type bits, so the
level of every table is kept in a ghost `Shape` beside the memory.

Where the code and its documents differ, the model follows the code.  design/ipc.md line 37 says that a caller always wakes
up.  `CallerMayNeverWake` gives, for every length, a run of the whole machine from what boot hands over in which it does not,
although the tasks keep taking turns, and `OpenUntilCompleted` says exactly when it does: if and only if the task that took
the CALL replies, dies or takes another CALL.  The messages "all tasks exited" and "all tasks blocked" both mean that no
task is Ready (`ParksExactly`).

The joint invariant that the results about runs start from is met by what boot hands over (`Start`), and is not empty
(`SpareIsMet`).

Preconditions taken from the platform: physical memory ends at or below 2^48 (the code does not check it, see the known
gaps in design/dtb.md), the linker places the kernel segments, the table pool and the root TCB inside the kernel image,
and the root task image is a whole number of granules when its length says so.

## Model

| member | source | states |
|---|---|---|
| `IpcMachine.Machine.constructor` | crates/k0-sched/src/lib.rs:117-125 | handoff leaves exactly one task, the root task, Running, with no queue entry and no reply right, and every invariant holds |
| `IpcMachine.Machine.Push` | crates/k0-sched/src/lib.rs:49-61 | over the one shared `next` field, push appends the task to the ready queue and leaves every endpoint queue as it was |
| `IpcMachine.Machine.Pop` | crates/k0-sched/src/lib.rs:67-81 | pop removes the first task of the ready queue, or reports 0 exactly when it is empty; no other queue changes |
| `IpcMachine.Machine.SwitchTo` | crates/k0-sched/src/lib.rs:91-103 | the given task becomes the Running current task and nothing else moves; TTBR0 then holds its root table, and is rewritten, with the TLB flush, exactly when the address space differs |
| `IpcMachine.Machine.RotateTasks` | crates/k0-sched/src/lib.rs:153-168 | rotation puts the current task behind the line and runs its head; with an empty line it does nothing; all invariants are kept |
| `IpcMachine.Machine.BlockAndSwitch` | crates/k0-sched/src/lib.rs:192-203 | false exactly when the ready queue is empty, and then the machine is parked with the current task still marked blocked |
| `IpcMachine.Machine.ExitCurrent` | crates/k0-sched/src/lib.rs:213-226 | the current task is Dead for good; false exactly when no task is ready; every invariant holds afterwards if it held no reply right |
| `IpcMachine.Machine.EpPush` | crates/k0-task/src/lib.rs:117-128 | append to one endpoint queue; the ready queue and all other endpoint queues keep their sequences |
| `IpcMachine.Machine.EpPop` | crates/k0-task/src/lib.rs:134-148 | remove the first task of one endpoint queue and clear its link, or report 0 on an empty queue; all other queues keep their sequences |
| `IpcMachine.Machine.AbortRight` | crates/k0-ipc/src/lib.rs:63-75 | the right of the holder is cleared and its caller, if any, becomes Ready with NO_REPLY and is appended to the line |
| `IpcMachine.Machine.SysSend` | crates/k0-ipc/src/lib.rs:89-118 | SEND on the linked memory is the step `Send` on sequences (or the error return for a bad slot); false exactly when the machine parks |
| `IpcMachine.Machine.SysRecv` | crates/k0-ipc/src/lib.rs:128-139 | RECV on the linked memory is the step `Recv` on sequences; false exactly when the machine parks |
| `IpcMachine.Machine.RecvInner` | crates/k0-ipc/src/lib.rs:153-180 | the shared receive path: take the head sender, hand over the reply right of a CALL, or block; all links stay valid |
| `IpcMachine.Machine.SysCall` | crates/k0-ipc/src/lib.rs:195-225 | CALL on the linked memory is the step `Call` on sequences; false exactly when the machine parks |
| `IpcMachine.Machine.SysReplyRecv` | crates/k0-ipc/src/lib.rs:239-259 | REPLY_RECV is reply then receive; a bad slot returns its error and leaves the right alone |
| `IpcMachine.Machine.KillCurrent` | kernel/src/main.rs:398-407 | EXIT, faults and unknown calls first wake the caller of a held right, then retire the task |
| `IpcMachine.Machine.TcbConfigure` | kernel/src/main.rs:494-503 | only an Inactive TCB is configured, with a cleared context, entry, stack and address space; otherwise BAD_STATE; all invariants are kept |
| `IpcMachine.Machine.TcbResume` | kernel/src/main.rs:525-535 | only a Stopped TCB enters the ready queue, so no task is ever queued twice; otherwise BAD_STATE |
| `IpcMachine.Machine.CreateTcb` | crates/k0-cap/src/lib.rs:204-205 | a cleared granule is a valid Inactive TCB that is in no queue and holds no right |
| `IpcMachine.Machine.CreateEndpoint` | crates/k0-cap/src/lib.rs:206-207 | a cleared granule is a valid endpoint with an empty queue |
| `IpcMachine.ReadyPush` | crates/k0-sched/src/lib.rs:49-61 | linking a task that is in no queue behind the tail keeps every queue a finite chain with the right tail, and all queues disjoint |
| `IpcMachine.EndpointPop` | crates/k0-task/src/lib.rs:134-148 | unlinking the head of one endpoint keeps every other chain, the ready chain, and `next` = 0 off-queue |
| `Ipc.NextSafe` | kernel/src/main.rs:337-369 | every kernel entry, with whatever registers, keeps each task in exactly the place its state names, queues one-directional, and reply rights acyclic |
| `IpcRuns.OnePlacePerTask` | crates/k0-task/src/lib.rs:58-78 | in a safe state: one Running task, the current one; Ready once in the line; waiting once in one endpoint queue; BlockedReply behind exactly one right; the rest nowhere |
| `IpcRuns.ReachablePlaced` | kernel/src/main.rs:337-369 | in every state of every run from handoff each task is in exactly the place its state names, and no endpoint queue mixes senders and receivers |
| `IpcRuns.ReplyChainEnds` | crates/k0-ipc/src/lib.rs:153-225 | following reply rights from any caller ends after finitely many hops at a task that neither waits for a reply nor is dead |
| `IpcEffects.NextEffect` | crates/k0-ipc/src/lib.rs:89-259 | one entry touches only the tasks it names, appends the woken tasks in order, and switches only to the head of the line |
| `IpcMessages.NextQueue` | crates/k0-ipc/src/lib.rs:89-259 | each endpoint queue changes by at most removing its first task or appending the current one |
| `IpcMessages.WaiterSpared` | crates/k0-ipc/src/lib.rs:89-259 | a waiting task that is not taken off its queue keeps all its registers, its state and its right |
| `IpcMessages.DeliveredWords` | crates/k0-ipc/src/lib.rs:46-50 | the receiver of a delivery ends up with exactly the sender's x2 to x5, x0 = 0 and x1 = 0, and keeps its own x8, program counter, stack pointer, status and all other registers |
| `IpcOutcomes.SendMeets` | crates/k0-ipc/src/lib.rs:89-118 | SEND: a waiting receiver gets the words and joins the line, and the sender goes on with 0; with nobody waiting it returns -14 if bit 0 of x1 is set and changes nothing else, and otherwise waits as the last of the queue with all its registers while the head of the line runs |
| `IpcOutcomes.RecvMeets` | crates/k0-ipc/src/lib.rs:128-180 | RECV: the words of the first sender arrive; a sender is released with 0, a caller turns into the right to reply, and the caller of an older right is told -15 first; with no sender it returns -14 or waits, as SEND |
| `IpcOutcomes.CallMeets` | crates/k0-ipc/src/lib.rs:195-225 | CALL: a waiting receiver gets the words and the right, the caller waits for the reply; with no receiver it returns -14 or waits as the last of the queue |
| `IpcOutcomes.ReplyRecvMeets` | crates/k0-ipc/src/lib.rs:239-259 | REPLY_RECV: the held caller, if any, gets the words and joins the line, the right is spent, and then RECV follows |
| `IpcOutcomes.KillExact` | kernel/src/main.rs:398-407 | a killed task is Dead, the caller of its right is told -15 and joins the line, the head of the line runs, and nothing else changes |
| `Outcomes.IpcExact` | crates/k0-ipc/src/lib.rs:89-259 | for each of the four call numbers on an endpoint the new state of all tasks is the one its relation describes, and that relation allows no other |
| `IpcMessages.MessagesConserved` | crates/k0-ipc/src/lib.rs:89-180 | per endpoint and over any run, the accepted messages are the delivered ones followed by those still queued, in order and word for word |
| `IpcMessages.ReceiversInOrder` | crates/k0-ipc/src/lib.rs:89-180 | waiting receivers of an endpoint are served in the order in which they began to wait |
| `IpcMessages.WaitCompletesOnce` | crates/k0-ipc/src/lib.rs:89-225 | over any run a task that blocks on an endpoint keeps its registers and state until an entry takes it as the head of that queue; then a SEND returns 0 with its very words in the receiver, a RECV gets exactly the words of the sender, and a CALL turns into the wait for its reply |
| `IpcCalls.CallStep` | crates/k0-ipc/src/lib.rs:63-259 | an unfinished CALL is left as it is, moves on to its receiver with its words, or completes; there is no fourth case |
| `IpcCalls.CallCompletesOnce` | crates/k0-ipc/src/lib.rs:195-259 | a CALL completes at most once, by the task that received its words and held the right without a break: with x0 = 0 and that task's words, or with NO_REPLY and nothing else changed |
| `IpcCalls.CompletesExactly` | design/ipc.md:31-35 | a delivered CALL ends at an entry if and only if its holder replies, is killed, or takes another CALL at that entry |
| `IpcStalls.OpenUntilCompleted` | design/ipc.md:37 | over any run a CALL taken by a task is still open if and only if that task has since neither replied, nor died, nor taken another CALL; as long as it is open that task holds the right |
| `IpcStalls.CallerWaitsThroughTicks` | design/ipc.md:37 | from every running state with an unfinished CALL there is a run of any number of timer ticks through which the caller waits with its registers untouched and the machine never parks |
| `IpcWaiting.ParksExactly` | crates/k0-sched/src/lib.rs:192-226 | an entry parks the machine if and only if the current task leaves, nothing was ready and nobody was woken; equivalently no task is Ready or Running afterwards |
| `IpcWaiting.WakersNeverPark` | kernel/src/main.rs:398-407 | CALL to a waiting receiver, REPLY_RECV with a right, and killing a holder never park |
| `IpcWaiting.LineMoves` | crates/k0-sched/src/lib.rs:138-168 | whatever IPC, kills and wake-ups happen, a ready task keeps its position, and moves up by exactly one at each switch |
| `IpcWaiting.TickSwitches` | crates/k0-sched/src/lib.rs:153-168 | a tick or YIELD with a non-empty line always switches |
| `IpcWaiting.RunsAfterTurns` | crates/k0-sched/src/lib.rs:138-168 | a task at position i of the line is the current task after exactly i + 1 switches |
| `IpcWaiting.DeadForever` | crates/k0-task/src/lib.rs:68-69 | a Dead task keeps its state, registers and right for the rest of every run |
| `IpcSpaces.NextObjects` | kernel/src/main.rs:337-369 | no entry but RETYPE makes a TCB or an endpoint, none removes one, and only configuring an Inactive TCB sets an address space |
| `IpcSpaces.NextSpace` | kernel/src/main.rs:480-502 | every task that has been configured keeps running in the one address space its AddrSpace capability named |
| `Descriptors.LeafIs` | crates/k0-mm/src/paging.rs:216-216 | a page descriptor built by or holds exactly its frame address and its attributes |
| `Descriptors.LinkIs` | crates/k0-mm/src/paging.rs:202-207 | a table descriptor reads back as the address of the table it links |
| `Descriptors.KernelPermsKeepWX` | crates/k0-mm/src/paging.rs:78-85 | no kernel mapping is open to EL0; it is read-only exactly for Text and Ro, executable exactly for Text, device memory exactly for Device, and its access flag is set |
| `Descriptors.UserPermsKeepWX` | crates/k0-mm/src/user.rs:41-52 | a user leaf is EL0-writable exactly for Rw and EL0-executable exactly for Text, never executable at EL1, ordinary memory, and its access flag is set |
| `Descriptors.IndicesNamePage` | crates/k0-mm/src/paging.rs:150-154 | the four indices of an address are the digits of its 48-bit page number, for both granules |
| `Descriptors.SpanIsShift` | crates/k0-mm/src/paging.rs:150-154 | the divisor and the modulus of a table index are two to the shift and to the mask width of the code, for both granules and all four levels |
| `Descriptors.SameIndicesSamePage` | crates/k0-mm/src/paging.rs:150-154 | two addresses with the same four indices lie in the same page |
| `Tables.LevelOf` | crates/k0-mm/src/paging.rs:195-218 | in a levelled forest the walk meets no corrupt entry, and step k reaches a table of level k |
| `Tables.PathUnique` | crates/k0-mm/src/paging.rs:195-218 | a table is reached from one root only, by addresses that agree on every index so far |
| `Tables.LeafChangesOnePage` | crates/k0-mm/src/paging.rs:212-217 | writing a leaf changes the walk at one page of one root and nowhere else |
| `Tables.LinkKeepsWalk` | crates/k0-mm/src/paging.rs:200-205 | linking a cleared table changes no translation of any root |
| `Tallies.TallyGrows` | crates/k0-mm/src/paging.rs:189-229 | a mapping makes exactly the tables on the way to its page, as many as were missing, so the tables in use are counted by the prefixes of the mapped pages |
| `Paging.IndexOfExact` | crates/k0-mm/src/paging.rs:171-182 | `index_of` accepts exactly the addresses of tables in use and inverts their numbering |
| `Paging.Pool.constructor` | crates/k0-mm/src/paging.rs:143-148 | the static pool is clear, unused and not enabled |
| `Paging.Pool.Alloc` | crates/k0-mm/src/paging.rs:157-164 | the next unused table, or OutOfTables exactly when all are in use |
| `Paging.Pool.TryMap` | crates/k0-mm/src/paging.rs:195-218 | the walk and its links before any rollback: each error exactly when its cause holds, every link logged |
| `Paging.Pool.MapPage` | crates/k0-mm/src/paging.rs:189-229 | Overlap iff the page is mapped, OutOfTables iff the missing tables exceed the pool; failure leaves `used` and every entry identical; success changes exactly one page of one root; BadTable never arises |
| `Paging.Pool.MapRange` | crates/k0-mm/src/paging.rs:231-243 | maps page by page in order; reports how many pages were done, why it stopped, and that a single-page failure changes nothing; a range that does not wrap around 2^48 gets exactly its own pages; the tables made are one for every prefix of the indices of a mapped page, and OutOfTables means one page more needs more than the pool has |
| `Paging.Pool.MapSegment` | crates/k0-mm/src/paging.rs:314-324 | a segment is mapped at its own address and at the kernel alias, and nowhere else |
| `Paging.Pool.EnablePaging` | crates/k0-mm/src/paging.rs:290-343 | succeeds if and only if the granule is supported, paging is not on, the layout is made of whole granules without overlap, and its tables (two roots and one for every prefix of the indices of a page, in each half) fit the pool; then in both halves the walk finds the text read-only and executable, .rodata and every granule the DTB touches read-only, .data and .bss writable, the devices as device memory, nothing but the text executable, and nothing else mapped; every error implies its own cause |
| `Paging.LaidOut` | crates/k0-mm/src/paging.rs:303-332 | for every layout without overlap and every frame, the leaf asked for is the one of the range the frame lies in, and there is none outside all ranges |
| `Paging.Pool.MapKernelWindow` | crates/k0-mm/src/paging.rs:357-378 | opens exactly the given physical range at its alias, each frame at its own address, writable and never executable; errors exactly when misaligned, not enabled, already mapped, or out of tables |
| `Paging.KernelMapsKeepWX` | crates/k0-mm/src/paging.rs:307-332 | nothing in the resulting kernel map is open to EL0 or writable and executable at once |
| `Paging.HalfClosed` | crates/k0-mm/src/paging.rs:77-86 | through a root that maps the kernel segments at the alias, no address at all has a leaf that EL0 can access or that is writable and executable |
| `UserMemory.OpenFrames` | crates/k0-mm/src/user.rs:74-84 | Misaligned if and only if an end of the window is not aligned or the window is empty; otherwise the allocator starts at its beginning with nothing handed out |
| `UserMemory.Phys.AllocContig` | crates/k0-mm/src/user.rs:93-110 | n cleared frames next to each other exactly when n > 0 and they fit; otherwise OutOfFrames and no change |
| `UserMemory.Phys.NewSpace` | crates/k0-mm/src/user.rs:152-154 | a new root translates nothing and disturbs no other root |
| `UserMemory.Phys.BuildPage` | crates/k0-mm/src/user.rs:161-193 | Overlap iff the page is mapped; OutOfFrames iff it is not mapped and the missing tables do not fit the window; failure changes no translation; success adds exactly one and takes exactly the missing tables; only tables are written, and new ones come from the window |
| `UserMemory.Phys.BuildRange` | crates/k0-mm/src/user.rs:208-236 | argument errors exactly as checked; success maps exactly the range, over pages none of which was mapped before, and takes exactly the frames its missing tables need; Overlap only over a mapped page, OutOfFrames only if the window cannot pay for the tables |
| `UserMemory.Phys.UserMapFrame` | crates/k0-mm/src/user.rs:298-341 | the run-time walk loop computes `MapFrame` on memory |
| `UserMemory.Phys.UserInstallTable` | crates/k0-mm/src/user.rs:360-384 | the run-time install loop computes `InstallTable` on memory |
| `UserMemory.OtherGranule` | crates/k0-mm/src/user.rs:126-128 | writing a granule that is no table changes no translation of any root |
| `UserSpace.MapFrameExact` | crates/k0-mm/src/user.rs:298-341 | MissingTable iff the path has a gap, Overlap iff the page is mapped; success adds exactly one translation and no table; a corrupt table is never met |
| `UserSpace.InstallExact` | crates/k0-mm/src/user.rs:360-384 | installing a cleared table changes no translation, closes exactly one gap, and keeps the tables a forest; Overlap iff the path is complete |
| `UserSpace.ThreeInstallsSuffice` | crates/k0-mm/src/user.rs:298-384 | for any in-range page not yet mapped, as many installs as the path has gaps, at most three, make the mapping succeed, and it is the only new translation |
| `UserPages.OwnedWalk` | crates/k0-mm/src/user.rs:41-52 | in an owned space the hardware walk reads exactly the page map: frame, writability and executability |
| `UserPages.OwnedKeepsWX` | crates/k0-mm/src/user.rs:41-52 | in an owned space no frame is writable through one address and executable through another |
| `Spawn.CopyImage` | crates/k0-task/src/lib.rs:215-221 | the image fills its frames granule by granule and changes nothing else |
| `Spawn.MapImage` | crates/k0-task/src/lib.rs:226-236 | exactly the accepted segments are mapped, each over its own frames of the image, none sharing a page; BadLayout only for a layout that breaks a rule, Overlap only for segments that share a page, NullPage and Misaligned only for segments outside the user address space, OutOfFrames only if the window cannot pay for the tables |
| `Spawn.RootAsSeen` | crates/k0-task/src/lib.rs:223-247 | what the hardware walk finds at every user address follows from the segments and their kinds |
| `Spawn.SpawnRoot` | crates/k0-task/src/lib.rs:197-257 | succeeds if and only if the layout is accepted, no two of its ranges share a page, the segments lie in the user address space, and image, stack and every table fit the window; then the walk finds in every segment the frame of that part of the image, writable exactly for Rw and executable exactly for Text, a writable stack, the boot information read-only, and nothing at any other address; each frame is behind one page, no frame is both page and table, and the image is in place; every error implies its own cause |
| `Caps.CNode.Push` | crates/k0-cap/src/lib.rs:131-138 | append a capability, or OutOfSlots exactly when all 32 slots are in use |
| `Caps.OverlappingIsSharing` | crates/k0-cap/src/lib.rs:278-281 | the interval test between two memory regions is sharing an address |
| `Caps.CNode.CheckMemory` | crates/k0-cap/src/lib.rs:274-284 | accepts exactly the memory lists whose regions are non-empty, do not overflow and do not overlap |
| `Caps.CNode.LowestNext` | crates/k0-cap/src/lib.rs:305-316 | the reservation with the lowest base that still matters, or BadRegion exactly when some reservation is unsound |
| `Caps.CNode.PushUntypeds` | crates/k0-cap/src/lib.rs:300-343 | the cursor loop ends, and its pieces are maximal, disjoint and cover exactly the unreserved part of the region |
| `Caps.CNode.Populate` | crates/k0-cap/src/lib.rs:268-297 | on success each address is in exactly one untyped if it is unreserved RAM and in none otherwise, whatever the order or overlap of reservations, behind Empty, the root TCB, the address space and the console in slots 0 to 3; each error exactly characterised |
| `Retype.CarveIsLowest` | crates/k0-cap/src/lib.rs:175-186 | the carved granule is the lowest aligned one above the watermark that fits; Exhausted means that there is none |
| `Retype.BootCapsOk` | crates/k0-cap/src/lib.rs:286-296 | what bootstrap leaves satisfies the bookkeeping invariant |
| `Retype.RetypeKeepsCaps` | crates/k0-cap/src/lib.rs:156-211 | a retype keeps the invariant: the object is an aligned granule of free RAM that nothing else has; watermarks only grow |
| `Retype.RetypesKeepCaps` | crates/k0-cap/src/lib.rs:156-211 | after boot and any sequence of retypes from any slots the bookkeeping still holds and no slot is lost |
| `Retype.ObjectsDisjoint` | crates/k0-cap/src/lib.rs:156-211 | distinct objects share no address, lie in unreserved RAM, and reach into no untyped remainder |
| `Window.InsideIsWhole` | kernel/src/main.rs:871-876 | the fit test of a window is that every one of its addresses lies in the region |
| `Window.HitsIsSharing` | kernel/src/main.rs:862-863 | the interval test against an obstacle is sharing an address |
| `Window.Bump` | kernel/src/main.rs:859-870 | stepping over the obstacles skips no usable window |
| `Window.PickWindow` | kernel/src/main.rs:846-888 | the lowest aligned 2 MiB window at or above the kernel end that fits in one region and misses the DTB and every reservation; None only if there is none, so the 64-round cap is never reached |
| `Ownership.ObjIsFree` | crates/k0-cap/src/lib.rs:156-211 | every object granule is a whole frame below 2^48, outside the boot window, with every byte in unreserved RAM |
| `Ownership.CarveFresh` | kernel/src/main.rs:546-571 | a granule about to be carved belongs to no capability, no window and not to the root TCB |
| `Ownership.RetypeMemory` | kernel/src/main.rs:560-574 | RETYPE clears a granule that is no table and nobody's page, so ownership is kept |
| `Ownership.MapFrameMemory` | kernel/src/main.rs:610-628 | a frame whose mapped flag is clear is nobody's page, so mapping it keeps every frame behind one page |
| `Ownership.InstallMemory` | kernel/src/main.rs:629-641 | a page table whose installed flag is clear is still zero and unlinked, so installing it keeps the forest |
| `Ownership.MapKeeps` | kernel/src/main.rs:598-663 | whatever MAP is asked for, ownership is kept, no executable page appears, and the park on a corrupt table is not taken |
| `Answers.MapAnswers` | kernel/src/main.rs:598-663 | each return code of MAP if and only if its cause holds, in terms of the capabilities and of what the hardware walk finds |
| `Answers.RetypeAnswers` | kernel/src/main.rs:546-583 | each return code of RETYPE if and only if its cause holds; EXHAUSTED means that no aligned granule above the watermark fits |
| `Answers.ConfigureOutcome` | kernel/src/main.rs:466-503 | each return code of TCB_CONFIGURE if and only if its cause in the capabilities or in the state of the TCB holds; 0 leaves the TCB Stopped with a cleared context but for the given entry and stack, and nothing else changed |
| `Outcomes.PutcMeets` | kernel/src/main.rs:418-433 | DEBUG_PUTC returns 0 for a Console capability, -1 for a slot out of range and -12 for any other capability, and changes nothing else |
| `Outcomes.YieldMeets` | kernel/src/main.rs:341-345 | YIELD returns 0 and puts the caller at the end of the line |
| `Outcomes.ExitMeets` | kernel/src/main.rs:346-367 | EXIT and every number that is no call leave the caller Dead; whoever waits for its reply is told -15, and the head of the line runs |
| `Outcomes.ConfigureTcbMeets` | kernel/src/main.rs:466-503 | TCB_CONFIGURE, with its codes in order, leaves an Inactive TCB Stopped with the entry, the stack and the address space, all other registers clear, and nothing else changed |
| `Outcomes.ResumeTcbMeets` | kernel/src/main.rs:513-535 | TCB_RESUME puts a Stopped task at the end of the line; -13 for any other state, -1 or -12 for a bad slot |
| `Outcomes.EndpointMeets` | kernel/src/main.rs:358-363 | numbers 7, 8, 9 and 10 on an endpoint slot do what SEND, RECV, CALL and REPLY_RECV promise on that endpoint; a bad slot returns -1 or -12 and changes nothing else, the reply right included |
| `Outcomes.RetypeMeets` | kernel/src/main.rs:546-583 | RETYPE, with its codes in order: on success the returned number is that of the new last slot, which holds a frame, page table, TCB or endpoint for kind 1, 2, 3 or 4 at the lowest free granule above the watermark; the watermark moves to its end, its memory is clear, and a TCB or endpoint is new among the tasks |
| `Outcomes.MapMeets` | kernel/src/main.rs:598-663 | MAP, with its codes in order: on success of a frame the walk at the address finds that frame, EL0-writable exactly for permission 1 and not executable, and is as before at every other page; on success of a page table one gap is closed and no walk changes; one word of memory is written |
| `Outcomes.CallMeetsOutcome` | kernel/src/main.rs:337-369 | every call number in every sound state has the outcome written down for it, in terms of registers, slots, memory, walks and queues alone |
| `Outcomes.RunMeets` | kernel/src/main.rs:337-460 | so has every system call, fault, timer interrupt and user step of every run |
| `Failures.FailureIsAtomic` | kernel/src/main.rs:337-369 | in every reachable state, a system call that goes on with an error code has changed no capability, no memory, no task and no register but x0, except that REPLY_RECV has delivered its reply when it then finds no sender |
| `Ownership.StoreMemory` | design/user-address-space.md:11 | a user store through a writable page hits a frame that is no table, so it changes no translation |
| `OwnershipRuns.EventEnabled` | kernel/src/main.rs:337-369 | every system call decodes to an entry the task rules allow, whatever the registers hold |
| `OwnershipRuns.StepSound` | kernel/src/main.rs:337-369 | every trap, with arbitrary user stores in between, keeps the joint invariant of tasks, capabilities and user tables; pages are only added, never executable ones |
| `OwnershipRuns.HandoffSound` | kernel/src/main.rs:286-331 | what boot hands over satisfies the joint invariant |
| `OwnershipRuns.RunSound` | kernel/src/main.rs:337-369 | the joint invariant holds in every state of every run |
| `OwnershipRuns.TasksRun` | kernel/src/main.rs:337-369 | the tasks of any run of the whole machine form a run of the IPC rules, so all results about those hold |
| `OwnershipRuns.NothingExposed` | kernel/src/main.rs:598-663 | over any run a page EL0 can reach is never a TCB, endpoint or page-table object, a table of the walk, or part of the kernel image or of the kernel table pool; the corrupt-table park is unreachable |
| `OwnershipRuns.RunKeepsWX` | kernel/src/main.rs:610-628 | over any run no frame is EL0-writable through one address and EL0-executable through another |
| `OwnershipRuns.ExecutableFixed` | design/user-address-space.md:34 | what is executable at any later time was executable at handoff, from the same frame |
| `OwnershipRuns.ReadOnlyFixed` | kernel/src/main.rs:610-628 | a mapped page that EL0 cannot write keeps its frame and its contents for the rest of the run |
| `Stalls.CallerMayNeverWake` | design/ipc.md:37 | a caller need not wake up: from everything boot hands over with three granules left in an untyped capability and three free slots, and for every number of ticks, the traps of three RETYPEs, two TCB_CONFIGUREs, two TCB_RESUMEs, a CALL, a RECV and then the ticks are a run of the whole machine at whose end the CALL is still open in the hands of its receiver, although every tick switches tasks |
| `Stalls.SpareIsMet` | kernel/src/main.rs:296-331 | for both granules and any entry registers there is such a hand-over: 16 MiB of RAM with the kernel image and the window in it, the rest one untyped capability, satisfying the joint invariant |
| `Kernel.CarveUnmapped` | kernel/src/main.rs:560-563 | the alias page of a granule about to be carved is never mapped: not by the kernel, a device, the window, the rounded DTB or an earlier object |
| `Kernel.Machine.Prepare` | kernel/src/main.rs:560-574 | preparing an object fails if and only if the table pool is exhausted, and then changes nothing |
| `Kernel.Machine.RetypeObject` | crates/k0-cap/src/lib.rs:156-211 | an object is made exactly when the request is sound and the pool has room; a refused request leaves CNode, pool and memory unchanged |
| `Kernel.Machine.SysRetype` | kernel/src/main.rs:546-583 | the call returns the new slot, which holds the object of the requested kind at the lowest free granule, or the documented code, and is one step of the machine; on refusal CNode and pool are unchanged |
| `Kernel.Machine.SysMap` | kernel/src/main.rs:598-663 | the call is one step of the machine and never parks; a mapped frame is found by the walk with the permission asked for and no other translation changes; every code exactly as documented |
| `Kernel.Machine.SysTcb` | kernel/src/main.rs:466-535 | TCB_CONFIGURE and TCB_RESUME with all their slot, address and state checks are one step of the machine |
| `Kernel.Machine.SysIpc` | kernel/src/main.rs:358-363 | the four IPC calls are one step of the machine with the outcome of their number, or the code for a bad slot; false exactly when it parks |
| `Kernel.Machine.SysPlain` | kernel/src/main.rs:340-349 | DEBUG_PUTC, YIELD, EXIT and unknown numbers are one step of the machine |
| `Kernel.Machine.Syscall` | kernel/src/main.rs:337-369 | any system call, on the real structures, is one step of the machine with the outcome of its number, and the joint invariant holds after it |
| `Kernel.Machine.Interrupt` | kernel/src/main.rs:383-453 | a fault or a timer tick is one step of the machine and keeps the joint invariant |
| `Kernel.Machine.StaysClosed` | kernel/src/main.rs:337-369 | whenever the invariant holds, no address of the TTBR1 half is open to EL0 or writable and executable, and no user page is backed by the kernel image or its tables |
| `Kernel.Machine.Run` | kernel/src/main.rs:337-460 | the handlers, given any system calls, faults, timer interrupts and user stores in any order (a store to a page EL0 cannot write faults), carry out a run of the machine, stop early only when it parks, and end with every invariant and both halves closed |
| `Startup.ClashIsSharing` | kernel/src/main.rs:825-825 | the interval test against a device window is sharing an address |
| `Startup.CheckMemoryMap` | kernel/src/main.rs:818-836 | accepts exactly the memory maps that overlap no device window |
| `Startup.ParsedMeetsBoot` | crates/k0-boot/src/fdt.rs:204-373 | whatever device tree the parser accepts, its regions, one for one, meet what boot requires of them |
| `Startup.BootAlias` | kernel/src/main.rs:758-788 | at handoff the kernel alias covers no granule that can still be carved, the rounded DTB included |
| `Startup.OpenWindow` | kernel/src/main.rs:193-206 | paging, the memory map check and the window together leave the kernel map exactly as the layout plus the window, which is writable and never executable at its alias; every failure implies its own cause in the board |
| `Startup.LoadRoot` | kernel/src/main.rs:208-262 | the boot information frame and the root task end up as an owned address space inside the window if and only if they fit it; the walk finds the loaded image with the permissions of its segments |
| `Startup.HandOver` | kernel/src/main.rs:264-331 | the filled CNode, the root task and the memory satisfy the joint invariant; the untyped capabilities cover exactly the RAM outside the kernel image, the DTB, the window and the firmware reservations; BadRegion and OutOfSlots imply their cause in the memory map |
| `Startup.Start` | kernel/src/main.rs:100-331 | if boot does not park, the machine it hands over satisfies the joint invariant, the TTBR1 half is closed to EL0, the root task fits the lowest window, runs alone at its entry with the stack pointer at the end of its mapped stack and all other registers clear, and owns its four fixed capabilities and all unreserved RAM; if it parks, the reason it gives implies its cause in the board, the image or the processor |
| `FdtParser.ReadCells` | crates/k0-boot/src/fdt.rs:470-472 | the shift-and-or loop reads a big-endian number of up to eight bytes without losing a bit |
| `FdtParser.ParseReg` | crates/k0-boot/src/fdt.rs:399-429 | entries are appended behind the first `count`, which stay; errors exactly for bad cells, bad length, overflow or a full list |
| `FdtParser.BootInfo.PushReserved` | crates/k0-boot/src/fdt.rs:460-468 | appends a region unless it overflows or eight are stored |
| `FdtParser.BootInfo.PushRegions` | crates/k0-boot/src/fdt.rs:431-441 | an erroneous reg value leaves the stored regions as they were |
| `FdtParser.BootInfo.PushReservedRegions` | crates/k0-boot/src/fdt.rs:447-457 | an erroneous reg value leaves the stored reservations as they were |
| `FdtParser.BootInfo.PushEntropy` | crates/k0-boot/src/fdt.rs:477-482 | stores bytes up to 72 in all and drops the rest |
| `FdtParser.BootInfo.ReadReservations` | crates/k0-boot/src/fdt.rs:244-256 | reads pairs up to the first (0, 0), skipping empty ones |
| `FdtParser.PropName` | crates/k0-boot/src/fdt.rs:375-390 | the NUL-terminated name at an offset of the strings block, or BadString |
| `FdtParser.NextToken` | crates/k0-boot/src/fdt.rs:270-365 | no byte outside the blob is read, and the offset stays 4-aligned and within the structure block |
| `FdtParser.ReadStructure` | crates/k0-boot/src/fdt.rs:258-366 | the token loop with its depth flags ends on every input with the verdict of `ReadStruct` |
| `FdtParser.ParseBlob` | crates/k0-boot/src/fdt.rs:204-373 | for every byte sequence the parser terminates with the verdict of `Parse` |
| `FdtPaths.TokenAgrees` | crates/k0-boot/src/fdt.rs:279-364 | on every token the depth flags give the same answer as the path and stay in step with it |
| `FdtPaths.ParsedByPath` | crates/k0-boot/src/fdt.rs:204-373 | for every byte sequence the verdict is that of the path-based reading of the token tree |
| `FdtPaths.ParseLimits` | crates/k0-boot/src/fdt.rs:399-429 | an accepted tree has one to eight memory regions and at most eight reservations, all non-empty and without overflow, and at most 72 bytes of entropy |
| `Fdt.NamesSpelled` | crates/k0-boot/src/fdt.rs:293-352 | the node and property names the parser asks for, letter by letter |
| `FdtAnswers.HeaderAnswers` | crates/k0-boot/src/fdt.rs:204-242 | for every byte sequence: Truncated, UnsupportedVersion and BadHeader each if and only if its cause in the header words holds; otherwise the bounds of the blocks |
| `FdtAnswers.PairsAnswers` | crates/k0-boot/src/fdt.rs:244-256 | the reservation block: all pairs of non-zero size up to the first (0, 0), or the fault of the first bad pair (BadReg for an overflow, TooManyRegions for a ninth region), or Truncated if and only if there is neither an end nor a bad pair |
| `FdtAnswers.TokenAnswers` | crates/k0-boot/src/fdt.rs:270-365 | each error of a token if and only if its cause holds: TooDeep, Truncated, BadString or BadStructure |
| `FdtAnswers.TokenIs` | crates/k0-boot/src/fdt.rs:270-365 | what an accepted token is by its number, the extent of its name and value, and where the next one starts |
| `FdtAnswers.RegAnswers` | crates/k0-boot/src/fdt.rs:399-429 | a reg value for every cell count: UnsupportedCells, then BadReg for its length, then all entries of non-zero size or the fault of the first bad entry |
| `FdtAnswers.PropAnswers` | crates/k0-boot/src/fdt.rs:333-357 | by the path of its node a property sets one cell count, or UnsupportedCells if and only if it is not one word; is read as reg; adds entropy; or changes nothing |
| `FdtPrinter.WireTokens` | crates/k0-boot/src/fdt.rs:38-42 | every printed token starts with its number as a big-endian word: 1, 2, 3, 4 or 9 |
| `FdtPrinter.NameIsThere` | crates/k0-boot/src/fdt/builder.rs:76-88 | at its offset the strings block holds the name and a NUL |
| `FdtPrinter.ScanPrinted` | crates/k0-boot/src/fdt/builder.rs:44-102 | scanning at a printed token returns that token and the offset behind it |
| `FdtRoundTrip.PrintedIsRead` | crates/k0-boot/src/fdt/builder.rs:108-145 | for any well-nested tokens and reservations, parsing the printed bytes gives exactly what the tokens mean |
| `FdtRoundTrip.PrintedAsIsRead` | crates/k0-boot/src/fdt/builder.rs:20-38 | the same for any header versions and with or without the END token: an unsupported version is refused first, then the first error of the reservations and tokens, then the missing END |
| `FdtRoundTrip.AcceptedTokens` | crates/k0-boot/src/fdt.rs:270-366 | a blob is accepted if and only if its structure block scans to tokens whose path-based meaning is a board with memory, and that meaning is the result; the scanned tokens are well nested, at most 32 deep and with properties only inside nodes |
| `FdtRoundTrip.ReprintMeansTheSame` | crates/k0-boot/src/fdt.rs:270-366 | printing what any blob holds, with a fresh layout and a shared names table, gives a blob with the same result or the same error |
| `FdtNoise.FoldActs` | crates/k0-boot/src/fdt.rs:270-366 | reading tokens is carrying out their effects: the properties a node is read for, in order, and entering the reserved-memory node |
| `FdtNoise.OnlyEffectsMatter` | crates/k0-boot/src/fdt.rs:270-366 | two blobs that hold the same reservations and the same effects get the same result or the same error, whatever else they hold |
| `FdtNoise.NoiseAnywhere` | crates/k0-boot/src/fdt/fuzz.rs:87-106 | a quiet piece of tree put in anywhere changes no effect |
| `FdtNoise.JunkIsQuiet` | crates/k0-boot/src/fdt/fuzz.rs:87-106 | NOPs, properties the parser never asks for and subtrees other than reserved-memory, nested to the depth limit, are quiet at every node |
| `FdtBoards.RegRead` | crates/k0-boot/src/fdt/builder.rs:156-170 | reading a printed reg value returns its entries of non-zero size, for one or two cells, or TooManyRegions if and only if they exceed the limit |
| `FdtBoardTrip.BoardReads` | crates/k0-boot/src/fdt/builder.rs:281-304 | the path-based reading of a board's tokens, with quiet noise at every place the builder asks for it, is its expected memory, reservations and entropy, or TooManyRegions if they exceed the limits |
| `FdtBoardTrip.BoardRoundTrip` | crates/k0-boot/src/fdt/fuzz.rs:265-323 | parsing the printed form of any well-formed board, with quiet noise, returns exactly its expected lists, with the (0, 0) cut-off and the 72-byte cap, if and only if it has one to eight memory regions and at most eight reserved ones; otherwise NoMemory or TooManyRegions |
| `FdtBoardTrip.AnyNoiseRoundTrip` | crates/k0-boot/src/fdt/builder.rs:210-304 | the same with noise anywhere: any well-nested tokens with the effects of the board will do |
| `FdtBuilder.Builder.PadOut` | crates/k0-boot/src/fdt/builder.rs:54-58 | zero bytes up to the next multiple of four |
| `FdtBuilder.Builder.StringOffset` | crates/k0-boot/src/fdt/builder.rs:76-88 | the first occurrence of the name in the strings block, which grows only when the name is new |
| `FdtBuilder.Builder.AddBegin` | crates/k0-boot/src/fdt/builder.rs:60-66 | appends the encoding of a node start, whatever its name, and changes no earlier byte |
| `FdtBuilder.Builder.AddProp` | crates/k0-boot/src/fdt/builder.rs:90-102 | appends the encoding of a property, whatever its name; earlier name offsets stay valid; as long as no name holds a NUL more properties can follow |
| `FdtBuilder.Builder.AddAll` | crates/k0-boot/src/fdt/fuzz.rs:87-106 | appends the encoding of any tokens, NOPs included, one after the other |
| `FdtBuilder.Builder.Build` | crates/k0-boot/src/fdt/builder.rs:108-145 | the bytes built are the printed form of the tokens and reservations added, with the version fields and the END token as set |
| `FdtBuilder.Write` | crates/k0-boot/src/fdt/builder.rs:210-273 | the board is written as exactly its tokens and reservations, with what the noise callback adds at each of its nine kinds of places |
| `FdtBuilder.Blob` | crates/k0-boot/src/fdt/builder.rs:210-273 | the builder output for a well-formed board and any quiet noise parses to the verdict on the board |
| `FdtBuilder.PlainBlob` | crates/k0-boot/src/fdt/builder.rs:275-279 | the blob of a well-formed board parses to the verdict on the board |
| `FdtBuilder.JunkBlob` | crates/k0-boot/src/fdt/fuzz.rs:87-106 | with NOPs, properties under names the parser never asks for, and subtrees of such properties under any name but reserved-memory, at every place, it still does |

## Left out

- Assembly, system registers, barriers, TLB and cache maintenance, and the register save and restore of the vectors: traps are atomic steps, and a user step may change the current context in any way.
- `check_features` and `tcr`: whether the granule is supported is a parameter of `EnablePaging`.
- GIC, timer, console output, PAC, PAN and BTI set-up, and the AT-based self checks: device and register access without an invariant of its own; DEBUG_PUTC keeps its capability check and return code.
- SHA-256 key derivation and the root task hash: the image is a parameter.
- `dtb_span` and `parse`: the raw reads of the first eight header bytes and the overlap test with the kernel image.
- The contents written by `write_bootinfo`: the page and its read-only mapping are modelled, its text is not.
- The builder's `raw`: bytes that are no tokens.
- Isolation between tasks: all tasks share one CNode and one address space in this version.
- TCB and endpoint memory as bytes: each TCB field is a map from the kernel address, so their layout in the granule is not modelled; physical memory holds the granules of tables and user frames.
- Paging.Pool.MapRange: a failure after the first page leaves the earlier pages mapped, as in the code; which pages a range that wraps around 2^48 gets is not stated.
- Paging.Pool.EnablePaging: after a failure the half-built tables are not described, because boot parks.
- Caps.CNode.Populate: after OutOfSlots the slots filled so far stay filled, as in the code.
- Spawn.SpawnRoot: after an error the half-built address space is only stated to be well formed, because boot parks.
- Stalls.CallerMayNeverWake: RETYPE is taken to find tables in the kernel pool for the alias of the new object.
- FdtBuilder.Builder.AddProp: what a property name with a NUL byte does to the search for later names is not modelled.
- FdtBoardTrip.BoardRoundTrip: the printed blob must be shorter than 2^32 bytes, the range of its header fields.
