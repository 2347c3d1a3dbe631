# A verified model of the OS exercises

This project models, in Dafny, the parts of the repository where the hard
reasoning is: process creation in a modified Linux 5.15, a TCP collectives
program, a kernel key-value store, ramfs with persistence, the no-MMU ramfs, a
vDSO window onto the task_struct, and a packet capture buffer. Everything is a
for-all statement: over every input, every run, every interleaving and every
failure point of the model.

`dafny verify dfyconfig.toml` checks all files together.

## What is where

| files | subject |
|---|---|
| `ProcessWalk.dfy`, `ProcessTree.dfy` | the preorder of the process tree, and the goto-driven walk that follows it |
| `Vfork.dfy` | the vfork completion handshake, parent and child interleaved |
| `CloneModel.dfy`, `CloneInv.dfy`, `CloneCounts.dfy`, `CloneLadder.dfy`, `CloneSteps.dfy`, `CloneShares.dfy`, `CloneKv.dfy`, `CloneDelayed.dfy`, `CloneTheorems.dfy`, `CloneReach.dfy`, `CloneWitness.dfy`, `CloneFinish.dfy`, `CloneUnshare.dfy` | `copy_process`, its error labels, and `ksys_unshare`, for any number of concurrent calls |
| `DupMmap.dfy` | the in-place copy of the area list, tree and accounting |
| `StackCache.dfy`, `StackUse.dfy` | the per-CPU kernel-stack cache, for any number of contexts |
| `TcpLoops.dfy` | the send and receive loops by themselves |
| `Collectives.dfy`, `TcpNet.dfy`, `TcpSpec.dfy`, `TcpTheorems.dfy` | the collectives as rank programs over byte channels |
| `TcpMesh.dfy` | the full-mesh connection set-up |
| `KvStore.dfy`, `KvCalls.dfy` | `write_kv` and `read_kv` with bucket locks |
| `RamfsFlush.dfy` | write-temp, fsync, rename, with crashes |
| `RamfsBind.dfy` | the bind parser, the bind and the offset-driven reader |
| `Nommu.dfy` | contiguous pages and the mapping lookup |
| `Vdso.dfy` | layout, fault handler and user-side pointer arithmetic |
| `Capture.dfy` | the packet buffer and its reader |
| `Wrappers.dfy` | optional values and results, used by all |

## How it is modelled

Concurrent code is a state machine: a `State`, a `Move` for each indivisible
step, `Enabled` and `Apply`, and runs as sequences of states. The granularity is
one lock operation, one atomic instruction or one locked section. Code that runs
by itself is imperative: classes with `modifies` clauses, loops with invariants,
arrays for buffers. Allocators, file operations, hooks and the network are
choices that succeed or fail in every way the code checks for.

Some choices that matter to a reader:

- **Clone.** A call is a `Build` (the half-built task) at a `Stage`; a failure
  jumps to the stage's label and falls through the labels below it. What each
  stage acquires (`Acquires`), where it jumps (`OnError`) and what each label
  releases (`Releases`) are three separate transcriptions; the ladder theorem is
  that they fit. Object names can be reused after a free, so a count that is too
  low would show up as a use after free. Tests that only return `-EINVAL` are in
  `Rejected`. Between two locks and a resource the order is not strictly nested
  in the source (the scheduler cookie is dropped before the siglock that was
  taken after it), so locks are not entries of the log.
- **Kernel-stack cache.** `place` and `owns` are history variables: where each
  stack is, and whether a task's two pointers are its own. Between the struct
  copy and the restore the new task's pointers are its parent's, as in the code.
- **Collectives.** Each rank runs its own sequence of sends, receives and local
  steps with partial transfers of any positive size; channels have any capacity
  of at least one byte. The proofs relate all ranks to one global order of
  events of which every program is a projection. Addition is an arbitrary
  function: no associativity is used.
- **Flush.** A disk has current names, file contents with a durability flag, and
  the entries a name may still have on the medium. A crash may leave any of
  those entries, and arbitrary bytes in a file that was not synced. Other
  contexts may do anything between two steps except touch the target's and the
  temporary file's name and the files behind them. What every operation and
  every read and write will return, and what others will have bound each time
  they get to run, is an input (`fault`, `Transfers`, `binding`), so success,
  failure, the target and a copy that is cut short are conditions on the input.
- **Key-value store.** The bucket is C's remainder, so a negative key that is
  not a multiple of 1024 indexes outside the table; `InTableExactly` gives the
  exact condition, and calls in the machine use keys in the table.

Results where the code falls short of the obvious promise, with the exact
condition under which it holds: `KvStore.InTableExactly` (negative keys),
`CloneTheorems.NewGroupTable` and `CloneReach.UnreachableExactly` (kv arrays when
an allocation or a later stage fails; `CloneWitness.LocksCanBeShared`,
`CloneWitness.StoresCanBeShared` and `CloneWitness.ArraysCanBeLost` give the
runs), `RamfsFlush.Flush` (a read that returns 0 before the end, `CutShort`, cuts
the copy; `RamfsFlush.EmptyReadEmptiesTarget` gives the input),
`RamfsBind.ReadsBackExactly` (a directory of the longest length loses its
newline), `Vdso.RequestFallsShort` (the free range that is asked for is shorter
than the one used; `Vdso.NeighbourInTheWay` gives the input),
`Vdso.PointerReaches` and `Vdso.OtherTasksPage` (bytes past five pages; a page
another task faulted in).

## Model

| member | source | states |
|---|---|---|
| `ProcessTree.WalkProcessTree` | kvm/linux-5.15.178/kernel/fork.c:2936-2966 | for every finite well-formed tree and every visitor the goto walk terminates, and: the visitor's data goes from each task shown to the next; a negative answer ends the walk and nothing else does; without one, exactly the children of the first group and of the groups whose leader got a positive answer are shown, and with one, only such; each task once, every earlier one above the later or before it where their ways up part; and a positive answer is followed at once by the group's first child if it has one. It is also, step for step, the recursive preorder |
| `ProcessWalk.RecursionIsWalk` | kvm/linux-5.15.178/kernel/fork.c:2936-2966 | the recursive preorder has all these properties, which say nothing about recursion |
| `ProcessWalk.PrecedesOneWay` | kvm/linux-5.15.178/kernel/fork.c:2936-2966 | the order in which tasks are shown goes one way only, so it fixes the sequence of any set of tasks |
| `ProcessTree.AtDescent` | kvm/linux-5.15.178/kernel/fork.c:2946-2951 | after a positive answer, going down to the child's group leaves exactly the recursive walk of that group followed by the rest still to be done |
| `ProcessTree.AtPruned` | kvm/linux-5.15.178/kernel/fork.c:2945-2955 | after a zero answer, the next sibling continues the recursive walk with that subtree left out |
| `ProcessTree.AtStop` | kvm/linux-5.15.178/kernel/fork.c:2948-2949 | after a negative answer the whole recursive walk has ended too |
| `ProcessTree.AtEnd` | kvm/linux-5.15.178/kernel/fork.c:2953-2963 | at the end of a children list the cursor goes to the next thread, or back up to the place right after the group it came from, and what remains is unchanged and smaller |
| `Vfork.RunInv` | kvm/linux-5.15.178/kernel/fork.c:1388-1420 | what holds in every reachable state of parent and child: lock ownership, at most one completion, who may still touch the on-stack completion |
| `Vfork.FrameOutlivesUse` | kvm/linux-5.15.178/kernel/fork.c:1388-1400 | whenever the child is between reading vfork_done and leaving complete(), the parent has not returned and cannot take the task_lock to return |
| `Vfork.CompletesAtMostOnce` | kvm/linux-5.15.178/kernel/fork.c:1393-1397 | complete() is called at most once, and never after the parent returned |
| `Vfork.UnkilledReturnsAfterRelease` | kvm/linux-5.15.178/kernel/fork.c:1402-1420 | a parent that was not killed returns only after the child gave up the mm |
| `Vfork.ChildStructIsLive` | kvm/linux-5.15.178/kernel/fork.c:2675-2690 | until it returns, the parent holds a reference that keeps the child's task_struct allocated |
| `Vfork.NoLostWakeup` | kvm/linux-5.15.178/kernel/fork.c:1465-1466 | once the child has left mm_release, a waiting parent can always go on |
| `Vfork.KilledInTheWindow` | kvm/linux-5.15.178/kernel/fork.c:1412-1416 | the window is real: a run in which a killed parent is held up while the child uses its completion |
| `Vfork.ParentCanReturn` | kvm/linux-5.15.178/kernel/fork.c:1401-1420 | from any state of any run, a waiting parent that is killed or whose completion was made comes back by its own steps while the child stays where it is, unless the child is just then holding its task_lock; as killed exactly if there was no completion |
| `Vfork.ParentWaits` | kvm/linux-5.15.178/kernel/fork.c:1401-1420 | a parent that is neither killed nor released stays in the wait whatever step is made |
| `Vfork.NeverStuck` | kvm/linux-5.15.178/kernel/fork.c:1388-1420 | until the parent has returned and the child is gone, one of them has a step to make, and a child that holds its task_lock has one |
| `Vfork.ReleasedAndReturned` | kvm/linux-5.15.178/kernel/fork.c:1388-1420 | a run in which the child gives the mm back and the parent returns unkilled |
| `CloneLadder.Ladder` | kvm/linux-5.15.178/kernel/fork.c:2063-2298 | for every flag set and stage, what the labels from the next stage's error label down release is what those of this stage release plus exactly what this stage acquired |
| `CloneLadder.LabelDown` | kvm/linux-5.15.178/kernel/fork.c:2497-2558 | falling through one label releases the most recently acquired resources still held and leaves the labels below to release the rest |
| `CloneLadder.MoveKeepsLog` | kvm/linux-5.15.178/kernel/fork.c:2067-2558 | every step of a call keeps its log of acquired and released resources in that relation |
| `CloneCounts.TakesOne` | kvm/linux-5.15.178/kernel/fork.c:1568-1660 | taking one reference to a new object, or to one that some task has, keeps every count equal to the number of its holders |
| `CloneCounts.DropsOne` | kvm/linux-5.15.178/kernel/fork.c:2517-2530 | dropping one reference, freeing with the last, keeps every count equal to the number of its holders |
| `CloneCounts.SignalLabel` | kvm/linux-5.15.178/kernel/fork.c:2522-2524 | the error path may free the new signal_struct at once because nobody else holds it |
| `CloneCounts.PublishCounts` | kvm/linux-5.15.178/kernel/fork.c:2435-2475 | making the new task visible hands its references over without changing a count, and adds one to its group's three counters when it is a thread |
| `CloneCounts.SwapFsCounts` | kvm/linux-5.15.178/kernel/fork.c:3182-3191 | the fs swap of unshare moves one reference, and the old object is doomed exactly when nobody holds it |
| `CloneCounts.SwapFilesCounts` | kvm/linux-5.15.178/kernel/fork.c:3193-3197 | the files swap trades two references and changes no count |
| `CloneCounts.FreeFsCounts` | kvm/linux-5.15.178/kernel/fork.c:3217-3219 | what unshare frees at the end is held by nobody else, on success and on failure |
| `CloneCounts.MoveKeepsCounts` | kvm/linux-5.15.178/kernel/fork.c:1528-1661 | every step of every call keeps every count equal to the number of holders |
| `CloneSteps.MoveKeepsInv` | kvm/linux-5.15.178/kernel/fork.c:1980-2558 | every step keeps counts, half-built tasks, pids and thread groups in order together |
| `CloneSteps.PublishKeepsGroups` | kvm/linux-5.15.178/kernel/fork.c:2307-2339 | a new task shares signal, sighand, mm and kv arrays with every task of its tgid, and its signal_struct with no other |
| `CloneKv.MoveKeepsKv` | kvm/linux-5.15.178/kernel/fork.c:2307-2312 | every step keeps the kv arrays of different groups, of half-built tasks and of lost ones disjoint and accounts for each array |
| `CloneFinish.CloneTakesAll` | kvm/linux-5.15.178/kernel/fork.c:2063-2435 | when its new task is about to become visible, a clone has taken exactly the listed resources in the listed order: what every task has, one reference for each object it points at, and what each flag adds |
| `CloneFinish.CloneCanFinish` | kvm/linux-5.15.178/kernel/fork.c:1980-2475 | from any state of any run, a clone that passes the argument checks can be carried to its end by its own steps, whatever the other calls are at: one new task appears, sharing exactly what the flags ask for |
| `CloneTheorems.CountsAreSharers` | kvm/linux-5.15.178/kernel/fork.c:1528-1661 | in every run, between calls, fs, files, sighand, signal and mm objects are allocated exactly when some task points at them, and the count is the number of tasks that do |
| `CloneTheorems.NeverFreedInUse` | kvm/linux-5.15.178/kernel/fork.c:2517-2530 | no step of any run frees an object that a task or a call still has |
| `CloneTheorems.UnshareFreesAtZero` | kvm/linux-5.15.178/kernel/fork.c:3182-3191 | unshare keeps the old fs_struct for freeing exactly when the count it lowered reached zero, which is exactly when nobody has it |
| `CloneTheorems.UnshareFreesUnused` | kvm/linux-5.15.178/kernel/fork.c:3217-3219 | the fs_struct unshare frees is no task's, and has count zero, or one when it is the unused copy of a failed call |
| `CloneTheorems.GroupsShare` | kvm/linux-5.15.178/kernel/fork.c:2307-2339 | in every reachable state, equal tgid is the same as equal signal_struct, and implies equal sighand, mm, kv_store and kv_locks |
| `CloneTheorems.GroupCounts` | kvm/linux-5.15.178/kernel/fork.c:2463-2466 | nr_threads, live and sigcnt of a group are the number of its member tasks |
| `CloneTheorems.KvTablesApart` | kvm/linux-5.15.178/kernel/fork.c:2307-2312 | two groups whose arrays were allocated share neither store nor locks |
| `CloneTheorems.NewGroupTable` | kvm/linux-5.15.178/kernel/fork.c:153-178 | a new group's two pointers are decided by the outcome of the two allocations in its own kv step, which the lemma finds in the run: both arrays exactly when both succeeded; if the first failed, no store and its maker's locks although its tgid is new, because the return value is ignored; if the second failed, the pointer to the store freed again |
| `CloneTheorems.LostExactly` | kvm/linux-5.15.178/kernel/fork.c:2307-2362 | a step takes an allocated array out of the tables that tasks and calls got from successful allocations exactly when it is the failure of a clone that made the array for a new group; and it stays out. A pointer left over from a failed allocation may still name it: `CloneReach.UnreachableExactly` counts those too |
| `CloneReach.UnreachableExactly` | kvm/linux-5.15.178/kernel/fork.c:2307-2362 | by the pointers themselves, valid or left over: a step leaves an allocated array that no task and no new task leads to exactly when it is the failure of a clone whose new task was the last to lead there; and an unreachable array stays so |
| `CloneReach.UnreachableIsLost` | kvm/linux-5.15.178/kernel/fork.c:2307-2362 | what no pointer leads to is in no table either |
| `CloneWitness.LocksCanBeShared` | kvm/linux-5.15.178/kernel/fork.c:153-178 | from boot there is a run, with a failing store allocation, after which two tasks with different tgid have the same kv_locks |
| `CloneWitness.StoresCanBeShared` | kvm/linux-5.15.178/kernel/fork.c:153-178 | from boot there is a run, with a failing locks allocation and a later fork that gets the freed store's name, after which two tasks with different tgid have the same kv_store |
| `CloneWitness.ArraysCanBeLost` | kvm/linux-5.15.178/kernel/fork.c:2307-2362 | from boot there is a run, with a clone failing after its kv arrays, after which no pointer leads to an allocated array |
| `CloneTheorems.ArraysAccounted` | kvm/linux-5.15.178/kernel/fork.c:2307-2362 | between calls every allocated array is either lost or the table of a visible group |
| `CloneTheorems.FailedCloneReleasesInReverse` | kvm/linux-5.15.178/kernel/fork.c:2497-2558 | for every flag set and failure point, a failed copy_process has released exactly what it acquired, each once, in reverse order |
| `CloneTheorems.LabelsMatchStages` | kvm/linux-5.15.178/kernel/fork.c:2063-2298 | at every stage of every run, what has been acquired is what the labels from this stage's own error label down would release |
| `CloneTheorems.FailedCloneRestores` | kvm/linux-5.15.178/kernel/fork.c:2497-2558 | two states of a run with the same tasks and the same calls going on have identical counts, signal counters and pids: a failed clone leaves no trace there, whatever else ran meanwhile |
| `CloneTheorems.DelayedListRestored` | kvm/linux-5.15.178/kernel/fork.c:2063-2070 | in any interleaving, if between two states of a run only calls move that are at rest in both, every delayed-signal list is the same in both, in order, whoever else is on it |
| `CloneTheorems.IdleNodesStay` | kvm/linux-5.15.178/kernel/fork.c:2063-2070 | whatever other calls do meanwhile, finished or not, the nodes of calls that do not move stay on every list in their order |
| `CloneShares.MoveKeepsShares` | kvm/linux-5.15.178/kernel/fork.c:1528-1661 | every step keeps a half-built task sharing, of what it has taken so far, exactly what the flags ask for |
| `CloneTheorems.CloneSharesByFlags` | kvm/linux-5.15.178/kernel/fork.c:1528-1661 | a new task has its maker's fs, files, sighand, signal, mm and tgid exactly when the flag for each was given, and objects of its own otherwise |
| `CloneTheorems.UnshareIsAlone` | kvm/linux-5.15.178/kernel/fork.c:3182-3197 | right after each swap the caller is the only task with the copy that was put in place, and no other task's pointers changed; `CloneUnshare.UnshareSeparates` is about the whole call |
| `CloneUnshare.UnshareSeparates` | kvm/linux-5.15.178/kernel/fork.c:3059-3197 | a whole unshare, from its start to the moment both pointers are in place, with any other calls in between: if CLONE_FS was given or implied, the caller is the only task with its fs, and likewise for its files; what was not asked for it still has; nothing else of it changed |
| `CloneUnshare.CopiesWhenShared` | kvm/linux-5.15.178/kernel/fork.c:3059-3095 | the check makes a new fs_struct, or files_struct, exactly when it was asked for and somebody else has the caller's |
| `CloneUnshare.FailedUnshareKeeps` | kvm/linux-5.15.178/kernel/fork.c:3144-3160 | an unshare that has not got past its first swap has changed nothing of its caller, so one that fails leaves the caller as it was |
| `CloneUnshare.RunSeparated` | kvm/linux-5.15.178/kernel/fork.c:3059-3095 | in every reachable state, a caller found alone with an object it wants to itself stays alone with it until the call is done |
| `CloneUnshare.UnshareCanFinish` | kvm/linux-5.15.178/kernel/fork.c:3116-3197 | from any state of any run, an unshare that can start can be carried to both swaps by its own steps, and then the caller is alone with what it asked for |
| `CloneUnshare.UnshareCanSeparate` | kvm/linux-5.15.178/kernel/fork.c:3059-3197 | from boot there is a run in which a child shares its parent's fs and files and, after the parent's unshare, neither |
| `CloneTheorems.WidenIsLeast` | kvm/linux-5.15.178/kernel/fork.c:3116-3132 | the flags unshare works with are the least set closed under its rules that has the given ones |
| `CloneTheorems.CallsEnd` | kvm/linux-5.15.178/kernel/fork.c:1980-2558 | every step of a clone or unshare lowers the number of steps it can still take |
| `CloneTheorems.CallsCanStep` | kvm/linux-5.15.178/kernel/fork.c:1980-2558 | in every reachable state a call that has begun has a step to take, whatever the other calls did |
| `CloneTheorems.BootIsStart` | kvm/linux-5.15.178/kernel/fork.c:1980-2558 | a machine with one process is a state the runs may start from |
| `DupMmap.DupMmap` | kvm/linux-5.15.178/kernel/fork.c:534-679 | on every exit the child's doubly linked list, tree and map_count hold the same areas, a prefix of the parent's without those not to be copied, and exactly their accounted pages are charged; the prefix ends at the first area that fails, before it or after it; it returns 0 exactly when no area and none of the calls around the loop fails, and then all areas are there, with total_vm the parent's minus the skipped pages; each area of the child has the pages and flags of the parent's area it stands for, without the two lock flags; the error is that of the first call that failed |
| `DupMmap.CopyArea` | kvm/linux-5.15.178/kernel/fork.c:574-661 | one turn of the loop: exactly when it goes on, with which error it stops, what each kind of failure leaves linked, charged and counted, and, field by field, what the linked copy has of the original |
| `DupMmap.Link` | kvm/linux-5.15.178/kernel/fork.c:644-653 | appending to the list through pprev and to the tree through rb_link keeps the tree's in-order sequence equal to the list |
| `DupMmap.AttachAtEnd` | kvm/linux-5.15.178/kernel/fork.c:649-651 | hanging a node to the right of the last one appends it to the in-order sequence |
| `DupMmap.DupMm` | kvm/linux-5.15.178/kernel/fork.c:1491-1526 | it returns an mm exactly when nothing fails; a failed dup_mm leaves the commit charge as it was; a successful one has the whole copy: the areas not marked otherwise, in order, each with the pages and flags of its original except that it is not locked |
| `DupMmap.Mmput` | kvm/linux-5.15.178/kernel/fork.c:1518-1522 | tearing a partial copy down uncharges exactly what its linked areas were charged |
| `DupMmap.TotalsAgree` | kvm/linux-5.15.178/kernel/fork.c:577-580 | the parent's pages are the child's pages plus the skipped ones |
| `DupMmap.ChildListIsFiltered` | kvm/linux-5.15.178/kernel/fork.c:574-616 | the child's list is the parent's at increasing positions, missing exactly the areas marked not to be copied; each area has the pages, account, wipe-on-fork and other flags of its original and neither lock flag |
| `DupMmap.WhatStopsIt` | kvm/linux-5.15.178/kernel/fork.c:581-661 | which failing call stops the copy at which kind of area, and that only failing page tables do so after the area is linked |
| `StackCache.MoveKeepsInv` | kvm/linux-5.15.178/kernel/fork.c:237-339 | every step of fork, failed fork, release and CPU teardown keeps each stack in exactly one place |
| `StackCache.SettledTaskOwnsItsStack` | kvm/linux-5.15.178/kernel/fork.c:256-312 | in every state of every run, the stack of a task nobody is building or freeing is no other such task's, in no slot, in no context's hand, and not freed |
| `StackCache.CachedStackIsAlone` | kvm/linux-5.15.178/kernel/fork.c:265-336 | a stack cached on an online CPU is in that slot only and not freed |
| `StackCache.NoStackLeaks` | kvm/linux-5.15.178/kernel/fork.c:237-339 | every stack ever allocated is freed, some task's, cached, or in a context's hand |
| `StackCache.FreedAtMostOnce` | kvm/linux-5.15.178/kernel/fork.c:237-253 | no interleaving of free and CPU offlining frees a stack twice |
| `StackCache.FailedDupGivesBackItsOwnStack` | kvm/linux-5.15.178/kernel/fork.c:926-1032 | a dup_task_struct that fails anywhere after it got a stack gives back that stack, while the task it was duplicating, which it still names as parent, has another one |
| `StackCache.ContextsCanStep` | kvm/linux-5.15.178/kernel/fork.c:237-339 | in every reachable state a context in the middle of something finds what its next step reads |
| `StackCache.CopyNamesTheParentsStack` | kvm/linux-5.15.178/kernel/fork.c:946-957 | right after the struct copy the new task's pointer is its parent's, and the saved one differs: the restore is needed |
| `StackUse.CacheComesFirst` | kvm/linux-5.15.178/kernel/fork.c:262-330 | a new stack is made only after this allocation has probed every slot and found it empty, and a stack is freed only after every slot was tried and found taken |
| `StackUse.CachedStackIsUsed` | kvm/linux-5.15.178/kernel/fork.c:256-288 | a stack a probe finds leaves its slot and is the one the new task has when dup_task_struct succeeds, whatever other contexts do |
| `StackUse.FreeSlotIsUsed` | kvm/linux-5.15.178/kernel/fork.c:318-334 | a free slot a probe finds gets the stack, which is not freed |
| `StackUse.TeardownEmpties` | kvm/linux-5.15.178/kernel/fork.c:237-253 | when the teardown of a CPU is done, none of its slots has a stack |
| `StackUse.ContextsEnd` | kvm/linux-5.15.178/kernel/fork.c:237-339 | every step of a context brings it nearer to its end and no other context's step moves it |
| `StackUse.DupCanSucceed` | kvm/linux-5.15.178/kernel/fork.c:926-1010 | from any state of any run, a dup_task_struct that can begin can be carried through by its own steps, and the new task is settled with a stack of its own |
| `Wire.DecodeEncode` | network/nccl/tcp_ip_test.cpp:144-159 | reading back the bytes of a buffer of words gives the words |
| `Wire.EncodeAt` | network/nccl/tcp_ip_test.cpp:144-159 | word i of a buffer takes bytes 4i to 4i + 3 of the message |
| `TcpLoops.TcpSend` | network/nccl/tcp_ip_test.cpp:44-51 | with arbitrary partial sends the channel gets exactly the data, in order; it stops short, with a prefix sent, exactly if a send was answered with an error, and that was the last one |
| `TcpLoops.TcpRecv` | network/nccl/tcp_ip_test.cpp:54-61 | with arbitrary partial receives of bytes that have arrived the buffer gets exactly the first bytes of the channel and the rest stays; it stops short exactly if a recv was answered with an error; a receive that starts before its bytes have arrived is in `TcpNet.StepKeepsInv` and `TcpNet.CallIsComplete` |
| `TcpLoops.SendTwoReadTwo` | network/nccl/tcp_ip_test.cpp:44-61 | two messages sent one after the other are read back one after the other, and without an error both are |
| `Collectives.AccumulateInto` | network/nccl/tcp_ip_test.cpp:178-180 | the in-place loop leaves in every word of the result the sum of the old word and the received one |
| `Collectives.ProgramIsProjection` | network/nccl/tcp_ip_test.cpp:144-191 | what each rank's code does for a collective is its share of one global sequence of messages |
| `Collectives.WholeProgramIsProjection` | network/nccl/tcp_ip_test.cpp:233-361 | the same for any sequence of barriers, broadcasts, all-reduces and time reports |
| `TcpNet.StepKeepsInv` | network/nccl/tcp_ip_test.cpp:44-61 | every partial send, partial receive and completed call keeps each channel equal to the bytes sent and not yet read of the global order |
| `TcpNet.CallIsComplete` | network/nccl/tcp_ip_test.cpp:44-61 | a send call that ends has sent its whole message, and a receive call that ends has exactly the bytes of the matching send |
| `TcpSpec.AllReduceMeaning` | network/nccl/tcp_ip_test.cpp:162-191 | run in the global order, all-reduce gives every rank the left fold in rank order of all send buffers |
| `TcpSpec.FoldAt` | network/nccl/tcp_ip_test.cpp:168-180 | word j of that fold is the left sum, in rank order, of word j of every rank's send buffer |
| `TcpSpec.BroadcastMeaning` | network/nccl/tcp_ip_test.cpp:144-159 | broadcast gives every rank the root's buffer and changes nothing else |
| `TcpSpec.BarrierMeaning` | network/nccl/tcp_ip_test.cpp:284-298 | a barrier changes no buffer |
| `TcpSpec.ReportMeaning` | network/nccl/tcp_ip_test.cpp:316-332 | rank 0 ends up with every rank's time, in rank order |
| `TcpSpec.ScheduleMeaning` | network/nccl/tcp_ip_test.cpp:233-361 | a whole sequence of collectives computes the composition of their meanings, with matching sizes throughout |
| `TcpTheorems.NoDeadlock` | network/nccl/tcp_ip_test.cpp:44-61 | for any ranks, capacity, schedule and partial sizes, a reachable state is finished or some rank can step |
| `TcpTheorems.StepMakesProgress` | network/nccl/tcp_ip_test.cpp:44-61 | every step uses up bytes or calls still to be done |
| `TcpTheorems.RunsAreFinite` | network/nccl/tcp_ip_test.cpp:44-61 | a run has at most as many steps as there was work at its start |
| `TcpTheorems.AllReduceIsFold` | network/nccl/tcp_ip_test.cpp:162-191 | every rank that returns from all-reduce has in word j the sum of word j of every rank's send buffer, added from the left in rank order, with no associativity assumed; nothing else of it has changed; and no state is stuck |
| `TcpTheorems.BroadcastIsCopy` | network/nccl/tcp_ip_test.cpp:144-159 | every rank that returns from a broadcast has the root's buffer, and nothing else of it has changed |
| `TcpTheorems.BarrierIsCounted` | network/nccl/tcp_ip_test.cpp:284-298 | every rank that returns from a barrier has entered and left once more, and nothing else of it has changed |
| `TcpTheorems.ReportIsTimes` | network/nccl/tcp_ip_test.cpp:316-332 | rank 0 returns from a report with the times of the other ranks in rank order, and nothing else of any rank has changed |
| `TcpTheorems.FillIsData` | network/nccl/tcp_ip_test.cpp:233-361 | a rank past a fill has the given data to send, and nothing else of it has changed |
| `TcpTheorems.FinishedRank` | network/nccl/tcp_ip_test.cpp:233-361 | a rank that finished any common sequence of collectives holds what the sequence means |
| `TcpTheorems.ResultsSoFar` | network/nccl/tcp_ip_test.cpp:233-361 | the results a rank has so far are a prefix of the final ones, even when ranks run ahead |
| `TcpTheorems.ReceiveGetsItsMessage` | network/nccl/tcp_ip_test.cpp:44-61 | in any state of any run a completed receive holds exactly the bytes of its matching send in the common order, from the rank it names, even when ranks are at different collectives |
| `TcpTheorems.ReadAfterSent` | network/nccl/tcp_ip_test.cpp:44-61 | a rank past a non-empty receive implies that its sender has reached the matching send |
| `TcpTheorems.BarrierSafety` | network/nccl/tcp_ip_test.cpp:284-298 | no rank has left more barriers than every other rank has entered |
| `TcpMesh.SetupNeverStalls` | network/nccl/tcp_ip_test.cpp:64-132 | in every reachable state of connection set-up, all ranks are done or some rank can step |
| `TcpMesh.StepMakesProgress` | network/nccl/tcp_ip_test.cpp:64-132 | every step lowers a bounded measure |
| `TcpMesh.CompleteMesh` | network/nccl/tcp_ip_test.cpp:64-132 | at the end, sockets[j] at i and sockets[i] at j are the accepting and the connecting end of one connection, for every pair |
| `KvStore.InTableExactly` | kvm/linux-5.15.178/kernel/kv_store.c:17-20 | a key indexes inside the table if and only if it is not negative or a multiple of 1024 |
| `KvStore.NegativeKeyOutOfTable` | kvm/linux-5.15.178/kernel/kv_store.c:17-20 | a concrete key whose bucket is outside the table |
| `KvStore.RunInv` | kvm/linux-5.15.178/kernel/kv_store.c:17-68 | in every reachable state keys are unique and in their bucket, and the chains represent the map of the linearized calls |
| `KvStore.KvLinearizable` | kvm/linux-5.15.178/kernel/kv_store.c:17-68 | for any number of threads and every interleaving the history of calls and returns is linearizable to a plain map on which a write returns 0, or -1 only for a key that is not there, and a read returns the value or -1 |
| `KvCalls.WriteFailsExactly` | kvm/linux-5.15.178/kernel/kv_store.c:22-48 | in every run a write returns 0 or -1, and -1 exactly when its own allocation failed |
| `KvCalls.AllocatedKeyIsStored` | kvm/linux-5.15.178/kernel/kv_store.c:35-45 | a write that got its memory returns 0 with its key in a chain, and there it is from then on |
| `KvCalls.LinkedKeyStays` | kvm/linux-5.15.178/kernel/kv_store.c:42-45 | the node a write links has the value written, stays in its chain for ever, and the write can only return 0 |
| `KvCalls.HitStores` | kvm/linux-5.15.178/kernel/kv_store.c:27-33 | a write that finds its key leaves the value in the node found, and can only return 0 |
| `KvCalls.WriteThenRead` | kvm/linux-5.15.178/kernel/kv_store.c:17-68 | for every key in the table and every value there is a run with the history: write returns 0, read returns the value |
| `KvCalls.CallsEnd` | kvm/linux-5.15.178/kernel/kv_store.c:17-68 | every step of a call lowers a measure of what it has left, which the steps of other calls do not raise |
| `KvStore.TableIsTheMap` | kvm/linux-5.15.178/kernel/kv_store.c:27-45 | a node in a chain is the only one with its key and holds the value of the linearized map |
| `KvStore.FailedWriteChangesNothing` | kvm/linux-5.15.178/kernel/kv_store.c:35-41 | in any run, no step of a write that returns -1, then or later, changes a chain, adds a node or changes a node's value |
| `KvStore.MutualExclusion` | kvm/linux-5.15.178/kernel/kv_store.c:25-47 | two threads are never in the same bucket's critical section |
| `KvStore.OnlyLocksBlock` | kvm/linux-5.15.178/kernel/kv_store.c:17-68 | in every reachable state a call can take its next step unless it waits for a taken bucket lock, and not otherwise |
| `KvStore.LockHolderMoves` | kvm/linux-5.15.178/kernel/kv_store.c:25-66 | whoever holds a bucket lock can always step: no deadlock |
| `RamfsFlush.TempNamesApart` | kvm/linux-5.15.178/fs/ramfs/inode.c:485 | the temporary name is never the target's, and different files have different temporary names |
| `RamfsFlush.CopyLoop` | kvm/linux-5.15.178/fs/ramfs/inode.c:522-548 | for all results of the reads and writes the temporary file holds a prefix of the source at every step and the target is untouched; the loop fails exactly when a read or a write fails before the end, and otherwise copies the whole source exactly when no read comes back empty before the end |
| `RamfsFlush.StopDecides` | kvm/linux-5.15.178/fs/ramfs/inode.c:522-548 | there is one round at which the copy stops, so its read and write results decide whether the copy is complete, cut short or failed |
| `RamfsFlush.RenamedIsSafe` | kvm/linux-5.15.178/fs/ramfs/inode.c:616-624 | after the rename of a synced file a crash leaves what was possible before or the whole new contents |
| `RamfsFlush.RenameIntoPlace` | kvm/linux-5.15.178/fs/ramfs/inode.c:567-636 | the rename block succeeds exactly when none of its operations fails, gives back every path, lock and dentry on every exit, and on an error no disk state since the start has touched the target |
| `RamfsFlush.WriteAndRename` | kvm/linux-5.15.178/fs/ramfs/inode.c:488-651 | every crash point from the open to the rename is safe; on an error the target is untouched at every one of them; it succeeds exactly when nothing fails |
| `RamfsFlush.Flush` | kvm/linux-5.15.178/fs/ramfs/inode.c:429-655 | with rebinding and other activity between the steps: the target's directory is the one bound when the mutex is held, and there is none for another file system's file; it returns 0 exactly when there is no directory or no operation and no part of the copy fails; with a directory the temporary name is then gone and the copy is at the target, exactly the bytes moved before the round at which the copy stops, and it is the whole source exactly when no read comes back empty before the end, in which case a crash at any step leaves the old contents or the whole source; if nothing fails and every read gives something, it is the whole source; on an error the target is untouched now and at every crash point; every resource is given back; with no directory our names are untouched at every step |
| `RamfsFlush.EmptyReadEmptiesTarget` | kvm/linux-5.15.178/fs/ramfs/inode.c:522-548 | with something to copy, a directory bound, a first read of no bytes and nothing failing, a flush returns 0 and the target is empty |
| `RamfsBind.CopyToken` | kvm/linux-5.15.178/fs/ramfs/inode.c:329-343 | skipping blanks and copying one path gives exactly the path of the grammar, its terminator and the next position, or the grammar's error, inside 256 bytes |
| `RamfsBind.ParseMountPath` | kvm/linux-5.15.178/fs/ramfs/inode.c:325-363 | the two loops compute the grammar: both paths as terminated strings, or the first error |
| `RamfsBind.ParseRoundTrip` | kvm/linux-5.15.178/fs/ramfs/inode.c:325-363 | any two paths of 1 to 255 characters, with any blanks before and at least one between, come back exactly |
| `RamfsBind.ParsedArePaths` | kvm/linux-5.15.178/fs/ramfs/inode.c:334-360 | whatever is accepted is two such paths |
| `RamfsBind.Ramfs.Bind` | kvm/linux-5.15.178/fs/ramfs/inode.c:373-419 | the error in the order of the checks; the binding changes only on success |
| `RamfsBind.Ramfs.ProcWrite` | kvm/linux-5.15.178/fs/ramfs/inode.c:688-735 | succeeds exactly when the text is short enough, the allocations and the copy succeed, the text parses and the directory can be bound; then the second path is bound and the count returned, else the binding is unchanged |
| `RamfsBind.Ramfs.ProcRead` | kvm/linux-5.15.178/fs/ramfs/inode.c:659-685 | one read returns the characters from the offset on, advances the offset by as many, and returns 0 exactly at the end |
| `RamfsBind.Ramfs.ReadToEnd` | kvm/linux-5.15.178/fs/ramfs/inode.c:659-685 | chunks of any positive sizes until 0 add up to the printed text |
| `RamfsBind.ReadsBackExactly` | kvm/linux-5.15.178/fs/ramfs/inode.c:665-671 | the printed text is the directory and a newline if and only if the directory is shorter than the longest possible path |
| `RamfsBind.WriteThenRead` | kvm/linux-5.15.178/fs/ramfs/inode.c:659-735 | two good paths written and bound are read back as the second path and a newline |
| `Nommu.GetOrder` | kvm/linux-5.15.178/fs/ramfs/file-nommu.c:71-74 | the least order whose block holds the size |
| `Nommu.Inode.Expand` | kvm/linux-5.15.178/fs/ramfs/file-nommu.c:62-126 | every exit: which pages are in the cache with which references, the size, and the error |
| `Nommu.PagesConserved` | kvm/linux-5.15.178/fs/ramfs/file-nommu.c:94-125 | each of the 2^order pages is attached at its index with one reference or free, never both, and other pages are untouched |
| `Nommu.Inode.FindGetPagesContig` | kvm/linux-5.15.178/fs/ramfs/file-nommu.c:228-230 | the pages present without a gap, a reference taken to each |
| `Nommu.ContigPages` | kvm/linux-5.15.178/fs/ramfs/file-nommu.c:228-238 | the lookup and the adjacency check succeed exactly when all pages of the range exist and follow one another in memory |
| `Nommu.Inode.GetUnmappedArea` | kvm/linux-5.15.178/fs/ramfs/file-nommu.c:202-251 | returns the first page's address exactly when the range is in the file, contiguous in memory and the array was allocated, and leaves every reference count as it was |
| `Nommu.LookupAgreesWithExpand` | kvm/linux-5.15.178/fs/ramfs/file-nommu.c:202-251 | of a file that got n pages of one block, exactly the ranges below n can be mapped, each at base plus offset |
| `Nommu.ExpandThenLookup` | kvm/linux-5.15.178/fs/ramfs/file-nommu.c:62-251 | after a successful expansion every in-range lookup returns base + pgoff * PAGE_SIZE unless its own allocation fails |
| `Vdso.Mm.MapVdso` | kvm/linux-5.15.178/arch/x86/entry/vdso/vma.c:332-410 | it succeeds exactly when it is not killed, the three allocations succeed and the whole range from the window to the end of the text is free; then the three adjacent areas are installed and recorded; every failure takes back what was installed and leaves the mm as it was, unlocked |
| `Vdso.RequestFallsShort` | kvm/linux-5.15.178/arch/x86/entry/vdso/vma.c:343-347 | get_unmapped_area is asked for vvar and text only: given such a free range, the mapping has room if and only if the VTASK_LEN bytes behind it are free too |
| `Vdso.NeighbourInTheWay` | kvm/linux-5.15.178/arch/x86/entry/vdso/vma.c:343-347 | for every address and size, one area right behind the requested range leaves that range free and the mapping without room |
| `Vdso.Window.Fault` | kvm/linux-5.15.178/arch/x86/entry/vdso/vma.c:183-219 | which page numbers are served and with what |
| `Vdso.Window.GetTaskStructInfo` | kvm/linux-5.15.178/arch/x86/entry/vdso/vget_task_struct_info.c:13-41 | for one task per mm and vvar data right above the window, finds the info page, computes the pointer, and reads the pid at its place in the task_struct |
| `Vdso.MapThenFind` | kvm/linux-5.15.178/arch/x86/entry/vdso/vget_task_struct_info.c:13-41 | the mapping succeeds exactly as map_vdso does; then the vvar data found from the text lie in the installed vvar area, and the user-side code gets context.vtask plus the page offset and reads the pid of the task_struct there, inside the installed window; a failed mapping leaves the mm as it was |
| `Vdso.PageOf` | kvm/linux-5.15.178/arch/x86/entry/vdso/vget_task_struct_info.c:29 | rounding the vvar data address down gives the start of vvar |
| `Vdso.InfoPageBelow` | kvm/linux-5.15.178/arch/x86/entry/vdso/vma.c:198-217 | in every installed layout the window ends where vvar starts, and the page directly below vvar is the info page |
| `Vdso.PointerReaches` | kvm/linux-5.15.178/arch/x86/entry/vdso/vget_task_struct_info.c:25-38 | for any mapping address, task address and byte, the computed pointer plus b leads to task_phys + b if and only if page offset plus b is below five pages |
| `Vdso.OtherTasksPage` | kvm/linux-5.15.178/arch/x86/entry/vdso/vma.c:186-197 | a page faulted in by another task leads to this task's bytes only if both start in the same page frame |
| `Vdso.VdsoAddrInBlock` | kvm/linux-5.15.178/arch/x86/entry/vdso/vma.c:424-447 | the random address is page aligned, not below the stack, and keeps the image in the 2 MB block of the lowest placement and inside the map window |
| `Vdso.VdsoAddrIsRandom` | kvm/linux-5.15.178/arch/x86/entry/vdso/vma.c:424-447 | every page in that range is the result for some random number |
| `Capture.FieldValue` | network/tcpdump/main.c:17-23 | a header field read back is the number written |
| `Capture.CaptureContext.Handle` | network/tcpdump/custom_tcpdump.c:22-46 | after every packet the buffer holds exactly the records of the packets kept by the greedy fit rule, within its size |
| `Capture.RecordReadsBack` | network/tcpdump/main.c:16-32 | a record at the front of any bytes reads back as the packet |
| `Capture.ReadPackets` | network/tcpdump/main.c:10-34 | the walk visits exactly the packets stored and stops at the end of the last record |
| `Capture.CaptureThenRead` | network/tcpdump/custom_tcpdump.c:22-46 | for every packet sequence, buffer size and limit, the reader gets, in order, exactly those packets for which, when they came, the limit was not reached and header and data fitted behind the ones kept before; and it stops at the writer's offset, the sum of their sizes |
| `Capture.KeptIsGreedy` | network/tcpdump/custom_tcpdump.c:22-46 | each packet is kept exactly if it fits when it comes; a packet too large does not keep a later, smaller one out |

## Left out

- The FUSE session store (`fuse/gptfs.py`): its invariants are easy beside the rest.
- Clone: exit and exec. Tasks are created and never go away, so counts fall only on error paths and in unshare.
- Clone: the idle tasks that share pid 0, namespaces and credentials as counted objects, ptrace, cgroups and futex state; they are steps that succeed or fail.
- Unshare: nsproxy and credentials. In particular nothing is claimed about the new nsproxy when `set_cred_ucounts` fails.
- Unshare: `unshare_files`, which exec uses (kernel/fork.c:3230-3252); its steps are those of an unshare with CLONE_FILES alone.
- Unshare: `check_unshare_flags` only refuses, so a refused call is a call that never starts.
- CloneTheorems.FailedCloneReleasesInReverse: the kv arrays are not part of the log, because no label releases them; `CloneTheorems.LostExactly` says exactly when they are lost.
- DupMmap.DupMmap: data_vm, exec_vm and stack_vm, the file and interval-tree side of an area, and the red-black rebalancing, which is an arbitrary function that keeps the in-order sequence.
- StackCache: memory-cgroup charging is one step that succeeds or fails; stack accounting and the shadow call stack are not modelled.
- Connection set-up: backlog limits, port reuse and the retry limit; connect waits until the matching accept is there.
- Collectives: floating-point rounding and times; a failed send or receive ends the original program and is not modelled.
- KvStore: the arrays themselves exist; what happens when they could not be allocated is in `CloneTheorems.NewGroupTable`.
- KvStore.KvLinearizable: calls use keys that index inside the table, because the original reads and writes outside it otherwise; `KvStore.InTableExactly` gives that condition.
- RamfsFlush.Flush: writes of no bytes may happen any number of times in a row but not for ever, because the original would then never return; path text is not truncated by snprintf, because the parts are at most 255 characters each.
- RamfsFlush: removal of a temporary file left by an error; the code leaves it there and the next flush truncates it.
- RamfsBind: permission and type checks of the directory are inputs.
- Nommu: shrinking and growing a file that is not empty (`ramfs_nommu_resize` beyond the empty case), and 64-bit wrap-around of lengths, which callers exclude.
- Nommu.Inode.GetUnmappedArea: a length of zero, which the caller never passes and the code does not survive.
- Vdso.Mm.MapVdso: a failing `get_unmapped_area`, whose error the code adds to before it tests it.
- Vdso.VdsoAddrInBlock: the hardware alignment applied after it.
- Capture: wrap-around of the packet counter and of size_t, and the pcap calls around the handler.
- ACPI table viewers, socket fairness and xattr exercises, CUDA and NCCL programs, headers, build files and scripts.
