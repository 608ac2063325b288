# Verified model of libgomp with user-level micro-thread tasks

This project models the task runtime and the work-sharing loops of a libgomp that runs tasks as user-level
micro-threads: a thread may suspend a task in the middle, start or resume another one, and come back. The model is
written in Dafny and every statement below is proved for all inputs, all runs and any number of threads.

`dafny verify dfyconfig.toml` checks everything. The modules follow the components:

| file | component |
|---|---|
| Depend.dfy | the `depend` clause: per-address chains, depender vectors and counters |
| DependLinks.dfy, DependEngine.dfy | the same on the next and prev pointers and hash slots of the source |
| TaskSwitch.dfy | suspending, resuming and completing tasks: tied lists and switch links of every thread |
| Blocking.dfy | blocked and unblocked sides of the queues during taskwait |
| PriorityList.dfy | the circular list of one priority with its two cursors and its ring of blocked tasks |
| SplayTree.dfy, HpTree.dfy | the splay tree of priorities and the sorted threading with marks |
| PriorityQueue.dfy | queues, the cached highest priority, and the choice of the next task |
| HashTable.dfy, HashMap.dfy | remainders by multiplication, probing, and the table as a finite map |
| Doacross.dfy | doacross post and wait, vector and flattened form |
| HandOut.dfy, LoopWords.dfy | chunks in positions, loops in words, and what ties them together |
| DynamicLoop.dfy, GuidedLoop.dfy | dynamic and guided hand-out of iterations, signed and unsigned |
| OrderedRing.dfy | ordered regions in dynamic and guided loops |
| StaticSchedule.dfy, Taskloop.dfy, Iterations.dfy, CountedLoops.dfy | static schedules and the division of taskloop |
| WorkShares.dfy | allocation and reclamation of work shares |
| StatePool.dfy | the pool of task states |
| Links.dfy, Chains.dfy, Counting.dfy, BitFields.dfy, Words.dfy | linked lists, set sizes, bit fields and 64-bit words |

## How the model reads

Everything a task operation does happens under the team's task lock, so the operations on tasks are atomic steps.
Where the source works without a lock (doacross words, chunk hand-out, work-share lists, ordered semaphores) each
access to shared memory is a step of its own and the theorems quantify over every interleaving. Objects that the
source updates in place are classes whose methods are proved against functions on values; the laws are lemmas about
those functions. Pointers are identifiers, and a `next` or `prev` field is a map from identifiers; a field that is
NULL is absent from the map or holds `Null`.

Where a law is not met by the code, the model keeps the code and the exact condition is proved:

- A flattened doacross layout of exactly 64 bits stores 0 for the last iteration. Waits stay safe, but a wait for a
  posted iteration returns if and only if the stored word did not wrap (`Doacross.FlatWait`, `Doacross.FlatWrap`).
- The transfer of priority 0 into the tree forgets a list of blocked tasks only (`PriorityQueue.Queue.Transfer`,
  `PriorityQueue.BlockedOnlyIsLost`), and it leaves two cursors behind, so that a tree that becomes empty again
  leaves a sound queue if and only if both are NULL (`PriorityQueue.Queue.Emptied`, `PriorityQueue.CursorIsLeft`).
- When a tied task terminates, the children of an untied task below it keep it as `ascending_tied_task`
  (`TaskSwitch.StaleAscending`); the tests of the scheduling points mean what they should exactly as long as that task
  exists (`TaskSwitch.OfferedExact`).
- The static schedule computes a start modulo 2^64. Iterations are run twice when a thread that has had its share
  finds a wrapped start below n, and the last ones are lost when the value after the last iteration is no word
  (`StaticSchedule.ChunkWraps`, `StaticSchedule.EndWraps`). `StaticSchedule.StaticExact` gives the exact condition and
  `StaticSchedule.Guard` a test for it. A taskloop loses its last iterations in the same way
  (`Taskloop.TaskEndWraps`, `Taskloop.TaskloopExact`).
- The dynamic schedule computes chunk times increment in a word. When that wraps, a thread can run a value that is no
  iteration, or the counter stands still, and the overflow-safe mode is set all the same (`DynamicLoop.WrapsToTwo`,
  `DynamicLoop.WrapsToZero`). `DynamicLoop.DynamicExact` and `DynamicLoop.UllDynamicExact` give the exact condition,
  `LoopWords.GuardFits` and `LoopWords.UllGuardFits` a test for it.
- The guided schedule with a minimal chunk of 0 can hand out empty ranges for ever (`GuidedLoop.ZeroChunk`,
  `GuidedLoop.GuidedExact`).
- In the last row of the hash sizes the 32-bit addition of a probe step can wrap (`HashTable.NextIndexExact`,
  `HashTable.LastRowWraps`).
- The transfer marks a list of priority 0 only if its head is waiting, so the queue of tied suspended tasks can lack
  that mark; the cached priority is right all the same, because it is 0 then (`PriorityQueue.MarksGiveCache`).

## Model

| member | source | states |
|---|---|---|
| `Depend.LastDepender` | task.c:195-307 | depender vectors are increasing, so the comparison with the last depender alone detects every duplicate edge |
| `Depend.ScanEffect` | task.c:231-275 | a scan that stops at the first redundant_out entry adds exactly one counted edge from every conflicting scanned task |
| `Depend.AddClauseChains` | task.c:195-307 | registering a clause keeps the shape of every per-address chain: ins, one live out, then only demoted outs |
| `Depend.AddClauseEnforced` | task.c:195-307 | after a clause every conflicting earlier sibling is a dependee, or is represented by a later one that is |
| `Depend.HeadTest` | task.c:221-230 | the head of a chain tells whether the task has registered the address before |
| `Depend.Represented` | task.c:231-305 | a task whose entry lies past the first redundant_out is represented by the scanned out entry |
| `Depend.Exact` | task.c:195-307 | num_dependees is 0 if and only if no earlier unfinished sibling conflicts on a shared address |
| `Depend.Progress` | task.c:1835-1960 | every outstanding task is reached along depender edges from a released unfinished sibling |
| `Depend.CreateKeeps` | task.c:709-806 | creating a deferred task with depend clauses adds it to the outstanding ones and keeps the invariant |
| `Depend.FinishKeeps` | task.h:355-401 | terminating a released task removes it and its edges and keeps the invariant |
| `Depend.ReleasedCoversNothing` | task.c:1799-1825 | an entry that is unlinked never leaves demoted outs without a live out in front |
| `Depend.RunKeeps` | task.c:195-307 | the invariant holds along every run of creations and terminations |
| `Depend.DependenceTheorem` | task.c:195-307 | over every run: exact counters, reachability of every held back task, and task_count 0 only when nothing is outstanding |
| `TaskSwitch.OfferedDescends` | task.c:2523-2562 | a fresh tied task offered at any scheduling point descends from every task tied to the thread (Task Scheduling Constraint of section 2.9.5 of OpenMP 4.5) |
| `TaskSwitch.OfferedDescendsFromLast` | task.c:3305-3317 | each source of fresh tied tasks gives a descendant of last_tied_task |
| `TaskSwitch.CompletionIsRecognised` | task.c:2280-2346 | the task that regains control finds in switch_from_task exactly the completed task, and a resumed one finds NULL |
| `TaskSwitch.InsertTiedSelf` | task.h:556-588 | starting a fresh tied task appends it to the tied list, anything else leaves the list alone |
| `TaskSwitch.RemoveTiedSelf` | task.h:590-613 | a completed tied task leaves the list, also from the middle, and last_tied_task stays its end |
| `TaskSwitch.SwitchPathSelf` | task.h:633-781 | after a switch switch_task and switch_from_task form one doubly linked path from the implicit to the running task |
| `TaskSwitch.SwitchKindsSelf` | task.h:633-781 | the interior of the path is exactly the set of tied tasks suspended on the thread |
| `TaskSwitch.SwitchOther` | task.h:800-923 | a switch on one thread leaves the paths and lists of all others alone |
| `TaskSwitch.SwitchDescending` | task.h:556-588 | the tied list stays a chain of creation descendants |
| `TaskSwitch.SwitchKeeps` | task.h:633-923 | suspending for any task that may run keeps paths, tied lists and flags together on all threads |
| `TaskSwitch.CompleteKeeps` | context.c:93-98 | completion and return to the task below keep them together |
| `TaskSwitch.CreateKeeps` | task.c:709-806 | creating a task keeps them together |
| `TaskSwitch.SwitchTheorem` | task.h:633-923 | in every state of every run each thread has one path and one descending tied list, and what is offered descends from all of the list |
| `TaskSwitch.ResumptionTheorem` | task.c:2280-2346 | in every run a resumed task sees NULL in switch_from_task and a task returned to sees the completed one |
| `TaskSwitch.Machine.InsertInTiedList` | task.h:556-588 | the field updates of the insertion |
| `TaskSwitch.Machine.RemoveFromTiedList` | task.h:590-613 | the field updates of the removal |
| `TaskSwitch.Machine.TaskRunPre` | task.c:1713-1728 | takes a tied suspended task out of the path and a fresh one out of the queues |
| `TaskSwitch.Machine.SuspendTiedFor` | task.h:633-781 | the link and kind updates of suspending a tied or implicit task |
| `TaskSwitch.Machine.SuspendUntiedFor` | task.h:800-923 | the link and kind updates of suspending an untied task |
| `TaskSwitch.Machine.SwitchTo` | task.c:2523-2562 | run_pre followed by the suspension that fits the running task |
| `TaskSwitch.Machine.CompleteRunning` | context.c:93-98 | the completion step: tied list, parents of the children, return to the task below |
| `Blocking.HandleBlockingKeeps` | task.h:262-341 | the recursive cascade terminates and restores the flags of all ancestors, whatever the flag of the task was |
| `Blocking.NotifyKeeps` | task.c:1988-2021 | notifying a parent in taskwait restores its flag |
| `Blocking.SuspendKeeps` | task.h:848-917 | suspending in a taskwait puts the task on the side that its children demand |
| `Blocking.RunPreKeeps` | task.c:1671-1795 | starting a task keeps flags, sides and counters in agreement for it and its parent |
| `Blocking.TerminateKeeps` | task.c:1965-2021 | termination unblocks the parent exactly when its last child leaves |
| `Blocking.CreateKeeps` | task.c:709-806 | creating a child keeps the agreement |
| `Blocking.ReleaseKeeps` | task.c:1835-1929 | releasing a held back child keeps the agreement |
| `Blocking.SetTaskwaitKeeps` | task.h:39-48 | entering and leaving a taskwait keeps the agreement |
| `Blocking.NoLostUnblock` | task.h:262-341 | in every state of every run a task suspended in taskwait is flagged blocked exactly when its children-count condition holds, and is on that side of every queue |
| `Blocking.Team.HandleTaskBlocking` | task.h:262-341 | the recursive method on the task fields |
| `Blocking.Team.SuspendTask` | task.h:848-917 | the queue part of the suspensions, which SuspendEffect describes |
| `Blocking.Team.StartTask` | task.c:1671-1795 | the queue part of run_pre |
| `Doacross.StampsGrow` | ordered.c:394-400 | words stored first are never older than words stored later |
| `Doacross.PrefixSeen` | ordered.c:463-486 | what a waiter has loaded so far is not after the post that stored the next word |
| `Doacross.StepKeeps` | ordered.c:394-486 | every single word store and word load keeps the invariant |
| `Doacross.DoacrossSafety` | ordered.c:405-485 | in every interleaving a wait returns only if the awaited vector, or a later one of the same owner, was posted |
| `Doacross.PostVector` | ordered.c:394-400 | the store loop leaves the whole vector in the array |
| `Doacross.WaitRound` | ordered.c:463-486 | one undisturbed round succeeds exactly if the vector is not after the posted one |
| `Doacross.PackOrder` | ordered.c:378-392 | bit packing embeds the lexicographic order |
| `Doacross.Flatten` | ordered.c:380-386 | the shift-and-or loop computes the packed word |
| `Doacross.CountBits` | ordered.c:274-296 | the loop over the counts finds an empty loop or the widths that fit a word |
| `Doacross.PlanFields` | ordered.c:274-336 | no entry array if and only if some loop is empty; flattened if and only if the fields fit one word |
| `Doacross.ShiftCounts` | ordered.c:325-333 | the shift of each component is the sum of the widths after it |
| `Doacross.FlatWait` | ordered.c:440-461 | flattened waits are always safe, and return for every posted vector if and only if the stored word did not wrap to 0 |
| `Doacross.FlatWrap` | ordered.c:378-392 | a layout of exactly 64 bits whose last post wraps to 0 |
| `SplayTree.ZigZigShortens` | splay-tree.c:69-130 | a step whose two turns agree shortens the search path or leaves its length with turns that disagree |
| `SplayTree.ZigZagShortens` | splay-tree.c:69-130 | a step whose turns disagree shortens the search path |
| `SplayTree.DoubleRotateShortens` | splay-tree.c:69-130 | the lexicographic measure falls in every step, so splaying terminates |
| `SplayTree.SplayOrder` | splay-tree.c:44-130 | splaying keeps the in-order sequence |
| `SplayTree.SplayAtKey` | splay-tree.c:69-130 | afterwards the root holds the key or its immediate neighbour |
| `SplayTree.InsertOrder` | splay-tree.c:134-172 | insertion at the splayed root inserts in order, or finds the duplicate |
| `SplayTree.HangRightOrder` | splay-tree.c:190-204 | hanging the right subtree below the greatest left node keeps the order |
| `SplayTree.RemoveRootOrder` | splay-tree.c:176-206 | removal deletes just the root from the in-order sequence |
| `HpTree.PrioTree.SplayKey` | splay-tree.c:69-130 | the loop computes the splayed tree |
| `HpTree.PrioTree.MarkedBelow` | splay-tree.c:238-248 | walking the threading finds the greatest marked key below |
| `HpTree.PrioTree.MarkNode` | splay-tree.c:210-254 | marks or unmarks; num_marked and highest_marked stay the number and the greatest of the marked nodes; the result tells whether the greatest changed |
| `HpTree.PrioTree.Insert` | splay-tree.c:258-324 | the threading stays the in-order sequence with the new key; a duplicate is refused |
| `HpTree.PrioTree.Remove` | splay-tree.c:327-386 | the threading stays the in-order sequence without the key; nothing happens for an absent key |
| `HpTree.PrioTree.Lookup` | splay-tree.c:391-399 | finds exactly the keys that are there |
| `HpTree.HighestUnique` | splay-tree.c:210-254 | the cached value is determined by the marks |
| `PriorityList.InsertKeeps` | priority_queue.h:266-393 | insertion puts the task at the chosen end of its segment and keeps ring and cursors right |
| `PriorityList.InsertRunningKeeps` | priority_queue.h:418-440 | a running task goes to the end |
| `PriorityList.InsertBlockedKeeps` | priority_queue.h:266-300 | a blocked task joins the other ring |
| `PriorityList.RemoveKeeps` | priority_queue.h:464-556 | removal from any position keeps ring and cursors right |
| `PriorityList.RemoveBlockedKeeps` | priority_queue.h:464-490 | removal from the blocked ring |
| `PriorityList.UpgradeKeeps` | task.c:1482-1537 | an awaited task moves behind the awaited ones, or to the front if it closes the ring |
| `PriorityList.DowngradeKeeps` | task.c:1577-1615 | a started task stays if it closes the schedulable part and goes to the end otherwise |
| `PriorityList.AdjustStep` | task.h:61-78 | suspending a running task moves it to its schedulable segment |
| `PriorityList.BlockStep` | task.h:127-133 | blocking moves a task to the other ring |
| `PriorityList.UnblockStep` | task.h:191-210 | unblocking moves it back |
| `PriorityList.ApplyKeeps` | priority_queue.h:266-554 | every operation changes the kind of its task only, and the segments hold exactly the tasks of each kind |
| `PriorityList.ListTheorem` | priority_queue.h:266-554 | over every run the pointers spell awaited, plain and running segments with both cursors at the boundaries |
| `PriorityList.HeadIsBest` | priority_queue.h:45-72 | the head is awaited, plain or running in this order of preference, and NULL exactly if all are blocked |
| `PriorityList.LastOneOut` | priority_queue.h:464-556 | the value returned by a removal tells exactly whether the list became empty |
| `PriorityList.ChildrenList.InsertNode` | priority_queue.h:266-393 | the pointer updates of insertion |
| `PriorityList.ChildrenList.InsertRunningNode` | priority_queue.h:418-440 | the pointer updates of insert_running |
| `PriorityList.ChildrenList.RemoveNode` | priority_queue.h:464-556 | the pointer updates of removal |
| `PriorityList.ChildrenList.UpgradeNode` | task.c:1482-1537 | the pointer updates of upgrade |
| `PriorityList.ChildrenList.DowngradeNode` | task.c:1577-1615 | the pointer updates of downgrade |
| `PriorityList.ChildrenList.Perform` | priority_queue.h:266-554 | any operation on the object changes the represented kinds and the order as specified |
| `PriorityQueue.MarksStep` | priority_queue.c:230-262 | after every operation a list is marked exactly if it has a schedulable task, priority 0 possibly excepted |
| `PriorityQueue.MarkRight` | task.c:1636-1656 | the tests of the head's kind set and clear the mark rightly in each sort of queue |
| `PriorityQueue.MarksGiveCache` | priority_queue.c:340-390 | such marks make highest_priority the greatest priority of any schedulable task, 0 if there is none |
| `PriorityQueue.CacheUnique` | priority_queue.h:96-104 | that value is determined by the tasks in the queue |
| `PriorityQueue.CountStep` | priority_queue.h:395-412 | num_waiting_priority_node and num_priority_node count exactly the schedulable and all nodes |
| `PriorityQueue.TreeStep` | priority_queue.c:194-390 | every operation in tree form keeps lists and marks right |
| `PriorityQueue.NextInHighest` | task.c:1294-1312 | the recursive search returns the head of the highest list that offers one, NULL only if none does |
| `PriorityQueue.TreeNextBest` | task.c:1294-1312 | that is a schedulable task of maximal priority, awaited if any awaited one has that priority |
| `PriorityQueue.FlatNextBest` | task.c:1371-1425 | the same for a queue with one list |
| `PriorityQueue.CacheAgrees` | task.c:3577-3606 | the search finds a task of the cached priority |
| `PriorityQueue.ChooseBest` | task.c:1324-1360 | the second queue is chosen exactly if it has a schedulable task above all of the first, or an awaited one that none beats and no awaited one equals |
| `PriorityQueue.NextOfTwo` | task.c:1371-1425 | a schedulable task of maximal priority over both queues, awaited if any of that priority is; from the second queue exactly if that is preferred; NULL only if neither has one |
| `PriorityQueue.Queue.Next` | task.c:1371-1425 | the candidate of one queue, whose priority is highest_priority |
| `PriorityQueue.Queue.CacheRight` | priority_queue.h:96-104 | the cache of a valid queue is the greatest schedulable priority |
| `PriorityQueue.Queue.Transfer` | priority_queue.c:203-229 | the move of priority 0 into the tree loses nothing if and only if the list is not made of blocked tasks only |
| `PriorityQueue.BlockedOnlyIsLost` | priority_queue.c:203-229 | one blocked task alone is left behind by the transfer |
| `PriorityQueue.CursorIsLeft` | priority_queue.c:203-229 | one running task leaves a stale cursor in the list left behind |
| `PriorityQueue.Queue.Emptied` | priority_queue.c:203-229 | an emptied tree leaves a good queue if and only if the two cursors left behind are NULL |
| `PriorityQueue.Queue.SetMark` | task.h:86-92 | marking refreshes highest_priority exactly when the greatest marked key changed |
| `PriorityQueue.Queue.NodeFor` | priority_queue.c:230-260 | finds or creates the list of a priority and marks it for a schedulable task |
| `PriorityQueue.Queue.DropNode` | priority_queue.c:352-372 | an emptied list leaves the tree and its mark goes |
| `PriorityQueue.Queue.Remark` | task.h:138-155 | the mark of a list that stays follows its head |
| `PriorityQueue.Queue.TreeOp` | priority_queue.c:194-390 | any operation in tree form keeps the queue valid |
| `PriorityQueue.Queue.Perform` | task.h:83-248 | any operation keeps lists, marks, cache and counters right while the tree is not emptied, with the exact condition when it is |
| `HashTable.MulShiftExact` | hashtab.h:186-207 | htab_mod_1 is x % y for every 32-bit x whenever the multiplier rounds up by little |
| `HashTable.EveryRow` | hashtab.h:109-141 | every row of the table has such multipliers, for the prime and for the prime less 2 |
| `HashTable.NoMultiple` | hashtab.h:219-225 | a product of two smaller positive numbers is no multiple of a prime |
| `HashTable.ProbesDiffer` | hashtab.h:257-280 | the first size probes are all different |
| `HashTable.Covers` | hashtab.h:257-280 | so the probe sequence visits every slot |
| `HashTable.NextIndexExact` | hashtab.h:268-273 | the 32-bit step of a probe is taken modulo the size if and only if the sum does not wrap, as for all sizes up to 2^31 |
| `HashTable.LastRowWraps` | hashtab.h:138-141 | in the last row of the table it can wrap |
| `HashMap.Absent` | hashtab.h:327-353 | an empty slot ends a search for good: deleted slots hide no element |
| `HashMap.MeetsEmpty` | hashtab.h:327-353 | with prime size every probe loop reaches an empty slot |
| `HashMap.EmptyExists` | hashtab.h:373-379 | fewer entries than slots leave an empty slot |
| `HashMap.PutSound` | hashtab.h:381-425 | an element put where its probe sequence allows hides no other |
| `HashMap.PutMaps` | hashtab.h:381-425 | and the table stands for the map with the new element |
| `HashMap.DropSound` | hashtab.h:430-439 | a deleted slot keeps the others reachable |
| `HashMap.HigherPrimeIndex` | hashtab.h:146-166 | the binary search finds the least row whose prime is not below n |
| `HashMap.Hashes` | hashtab.h:210-225 | primary and secondary hash are the two remainders |
| `HashMap.ProbeLoop` | hashtab.h:393-412 | the loop visits the slots of the probe sequence up to the key or an empty slot and remembers the first deleted slot |
| `HashMap.Search` | hashtab.h:381-412 | with prime size the loop terminates, and it has looked at every slot of the probe sequence before the one it returns |
| `HashMap.Reinsert` | hashtab.h:254-282 | an element of the old table goes to an empty slot of the new one |
| `HashMap.Refill` | hashtab.h:307-319 | the copy loop preserves the map |
| `HashMap.Table.Find` | hashtab.h:327-353 | returns the element of the map, or none |
| `HashMap.Table.Expand` | hashtab.h:288-322 | the map is unchanged, no slot is deleted, at most half are used, and the size changes only when it should |
| `HashMap.Table.Put` | hashtab.h:363-425 | adds or replaces the element in the map and reuses the first deleted slot |
| `HashMap.Table.Insert` | hashtab.h:363-425 | an expansion exactly at three quarters always leaves an empty slot; the map gains the element |
| `HashMap.Table.Delete` | hashtab.h:430-439 | removes the element from the map |
| `WorkShares.StartKeeps` | work.c:168-200 | following next_ws, or taking its lock, keeps the invariant |
| `WorkShares.WhoIsLast` | work.c:283-296 | threads_completed reaches nthreads exactly when the slowest thread leaves |
| `WorkShares.LeaveKeeps` | work.c:264-297 | counting a thread out, and choosing the one that frees, keeps the invariant |
| `WorkShares.FreeKeeps` | work.c:136-161 | each access of the compare-and-swap push keeps the invariant |
| `WorkShares.AllocCuts` | work.c:53-64 | detaching everything behind the snapshot stays correct although other threads push in front of it |
| `WorkShares.AllocKeeps` | work.c:38-87 | each access of the allocation keeps the invariant |
| `WorkShares.AllocPublishes` | libgomp.h:1538-1544 | publishing the new share links the construct before it |
| `WorkShares.InitialInv` | team.c:315-326 | a new team satisfies the invariant |
| `WorkShares.HandedOnce` | work.c:38-87 | a share that is being handed out is read by no other thread and is on no list |
| `WorkShares.InvSafe` | work.c:136-200 | a share somebody may read through work_share or next_ws is neither free, nor to be allocated, nor being freed |
| `WorkShares.ReclamationTheorem` | work.c:38-200 | safety under every interleaving of any number of threads over any number of nowait constructs; and every share ever obtained is live, on one of the two lists, in the hands of the allocator, or being freed by one thread |
| `OrderedRing.FirstQueue` | ordered.c:38-60 | a thread with its first chunk joins the end of the ring |
| `OrderedRing.LastQueue` | ordered.c:69-95 | a thread without a further chunk leaves the head |
| `OrderedRing.AgainQueue` | ordered.c:104-146 | a thread with another chunk moves from the head to the end, also in a full ring |
| `OrderedRing.NeverFull` | ordered.c:38-60 | a first chunk always finds room in the ring |
| `OrderedRing.AtHead` | ordered.c:194-226 | whoever has passed its semaphore is the head and works on the least unfinished chunk |
| `OrderedRing.SyncKeeps` | ordered.c:194-226 | each access of the synchronisation keeps the one token |
| `OrderedRing.StepKeeps` | loop.c:221-269 | every step keeps the ring in chunk order with one token |
| `OrderedRing.OrderedTheorem` | loop.c:497-531 | in every run ordered regions run one at a time and in the order of the chunks, and somebody can always proceed |
| `OrderedRing.OrderedShare.OrderedFirst` | ordered.c:38-60 | the updates of ring and semaphore |
| `OrderedRing.OrderedShare.OrderedLast` | ordered.c:69-95 | the updates of ring and semaphore |
| `OrderedRing.OrderedShare.OrderedNext` | ordered.c:104-146 | the updates of ring and semaphore |
| `StatePool.WalkChain` | state.c:159-168 | the counting loop stops at the last of the first count nodes |
| `StatePool.PopKeeps` | state.c:136-143 | taking from the own list |
| `StatePool.PushKeeps` | state.c:209-213 | returning to the own list |
| `StatePool.SpillKeeps` | state.c:218-266 | giving a surplus to the global list |
| `StatePool.InitKeeps` | state.c:37-56 | the first block of a thread |
| `StatePool.AddBlockKeeps` | state.c:185-187 | every state lies in one block and every block is on one list_to_free |
| `StatePool.StepKeeps` | state.c:129-267 | every step of every thread keeps the pool conserved and moves exactly the states it should |
| `StatePool.PoolTheorem` | state.c:129-267 | over every interleaving each allocated state is in exactly one local list, the global list or held, sizes match lengths, and allocated_tasks is the total |
| `StatePool.GroupEnd` | state.c:104-126 | every block is freed, and none twice, wherever its states have migrated |
| `StatePool.FreeList` | state.c:58-73 | the blocks of one thread, in order |
| `StatePool.TakeRun` | state.c:159-168 | the loop over the first count nodes |
| `StatePool.Lists.GetState` | state.c:129-197 | one call is one of the steps, chosen by list and size |
| `StatePool.Lists.FreeState` | state.c:199-267 | one call is a push, followed by at most one transfer |
| `Depend.NothingOutstanding` | task.c:2324-2346 | for one parent: its queued and running children number 0 exactly if none is outstanding, held back or not |
| `Depend.TeamStep` | task.c:764-802 | a child of any parent that enters or leaves the queues keeps task_count equal to the total over all parents |
| `Depend.TeamTheorem` | task.c:2102-2346 | over every run of the children of any number of parents, task_count is 0 exactly if no parent has an outstanding child |
| `DependLinks.PutFrontSpells` | task.c:276-279 | the next, prev and slot assignments put the new entry in front of the chain of its address and touch no other chain |
| `DependLinks.MoveSpells` | task.c:294-303 | unlinking the previous out entry and putting it behind the last scanned one moves exactly that entry |
| `DependLinks.LinkSpells` | task.c:276-305 | all pointer assignments of one clause together spell the chain that the engine specifies |
| `DependLinks.LeaveSpells` | task.c:1806-1822 | unlinking an entry removes exactly it; a head gives its slot to its successor or clears it, and the slot is always its own, so abort is not reached |
| `DependEngine.FlaggedIff` | task.c:221-230 | a clause is flagged redundant exactly if an earlier clause of its task names the address |
| `DependEngine.OnePerChain` | task.c:221-230 | a task has at most one entry in a chain |
| `DependEngine.LeavingOne` | task.c:1805-1822 | a clause that is not flagged is still in its chain when its turn comes, and leaves it |
| `DependEngine.LeavingEnds` | task.c:1799-1825 | after the last clause no entry of the task is left and all others are |
| `DependEngine.DependHash.NewEntry` | task.c:210-216 | the fields of a new entry, which is in no chain yet |
| `DependEngine.DependHash.Flag` | task.c:221-230 | a repeated address leaves the chains alone |
| `DependEngine.DependHash.LinkClause` | task.c:276-305 | the pointer updates after the scan give the specified chain |
| `DependEngine.DependHash.LeaveChain` | task.c:1808-1822 | the pointer updates of one entry that leaves |
| `DependEngine.DependHash.LeaveChains` | task.c:1799-1825 | unlinks exactly the entries of the finished task from all chains |
| `DependEngine.Engine.AddDepender` | task.c:245-274 | grows the depender vector and the counter by one edge unless the last depender is the task itself |
| `DependEngine.Engine.ScanChain` | task.c:231-275 | the walk along the next pointers adds the specified edges and finds the last out entry and the last entry before the first redundant_out one |
| `DependEngine.Engine.RegisterClause` | task.c:208-305 | one clause, from its entry to the relinked chain |
| `DependEngine.Engine.HandleDepend` | task.c:195-307 | all clauses of a task in order |
| `DependEngine.Engine.CreateTask` | task.c:709-806 | the deferred branch: clauses, children queue, ready or held back, task_count |
| `DependEngine.Engine.PublishTask` | task.c:766-803 | a task that nothing holds back is queued and counted |
| `DependEngine.Engine.ReleaseDependers` | task.c:1835-1929 | counts down every depender and queues exactly those that reach 0 |
| `DependEngine.Engine.HandleDependPost` | task.c:1944-1960 | leaves the chains before it releases the dependers |
| `DependEngine.Engine.TerminateTask` | task.h:355-401 | the whole termination step refines the specified one |
| `DependEngine.Terminable` | task.h:355-401 | the invariant provides what the termination step relies on |
| `TaskSwitch.ImplicitRunsAlone` | context.c:93-98 | the implicit task runs exactly when its path is just itself; nothing tied is suspended on the thread then, and last_tied_task is NULL |
| `HandOut.BeginsAt` | iter.c:184-252 | chunk i of an end-to-end account begins at i times the chunk size |
| `HandOut.Aligned` | iter.c:184-252 | so chunks whose size is a multiple of the step begin at iterations |
| `HandOut.CounterBound` | loop.c:46-77 | threads that stop at their first refusal move the counter at most nthreads + 1 chunks past the end |
| `HandOut.CasKeeps` | iter.c:221-252 | a clamped chunk that a thread keeps across failed swaps is still the one the locked version would take |
| `HandOut.GuidedFits` | iter.c:270-288 | a guided chunk is positive, a whole number of steps or all that is left, and does not pass the end |
| `LoopWords.LoopInitValid` | loop.c:35-79 | gomp_loop_init gives a canonical loop, with the product of chunk and increment as a long |
| `LoopWords.UllInitValid` | loop_ull.c:36-82 | gomp_loop_ull_init likewise, modulo 2^64 and with the increment in two's complement |
| `LoopWords.BoundComputable` | loop.c:50-75 | the cheap test on the or of thread count and chunk makes the bound itself computable without overflow |
| `LoopWords.FastIsRoomy` | loop.c:46-77 | mode is set only if nthreads + 1 chunks past the end are representable |
| `LoopWords.UllFastIsRoomy` | loop_ull.c:48-80 | the same below 2^64 or above 0 |
| `LoopWords.IterationIs` | iter.c:147-252 | positions that are multiples of the step are the iterations start + k * incr |
| `LoopWords.BetweenSteps` | iter.c:194-219 | a range that begins between two steps begins at no iteration |
| `LoopWords.AccountRight` | iter.c:147-252 | an end-to-end account of chunks that begin at steps gives ranges in loop values: each begins at an iteration, no iteration is run by two, and all are run when the end is reached |
| `LoopWords.GuardFits` | loop.c:46-49 | the test a caller can make: the product of chunk and increment is a long |
| `LoopWords.UllGuardFits` | loop_ull.c:49-52 | the same for unsigned loops, up or down |
| `DynamicLoop.FetchStepIs` | iter.c:194-219 | one fetch-and-add in words, signed or unsigned, up or down, is one step of the account |
| `DynamicLoop.FetchRunIs` | iter.c:184-219 | the same for every run of a team; the counter never leaves the word |
| `DynamicLoop.FetchAddTheorem` | iter.c:184-219 | in every run the counter is a representable value within nthreads + 1 chunks of the end; with a fitting chunk every range begins at an iteration, no iteration is run twice, and after a refusal all are run |
| `DynamicLoop.FetchUnfit` | iter.c:184-219 | a chunk that does not fit has a run with a wrong range |
| `DynamicLoop.FetchAddExact` | iter.c:184-219 | so the hand-out is right in every run if and only if the loop is empty, or the chunk as computed is positive and a multiple of the step or no shorter than the loop |
| `DynamicLoop.WrapsToTwo` | loop_ull.c:49-52 | chunk 0x5555555555555556 and increment 3: the product wraps to 2 and the fast bit is set |
| `DynamicLoop.WrapsToZero` | loop_ull.c:49-52 | chunk 2^62 and increment 4, signed and unsigned: the product wraps to 0, the fast bit is set and the counter never moves |
| `DynamicLoop.LockedIs` | iter.c:147-176 | the locked version in words is the locked hand-out in positions, with the clamp for either direction |
| `DynamicLoop.TryIs` | iter.c:229-246 | one pass of the retry loop in words, with the chunk kept from the pass before, is one attempt in positions |
| `DynamicLoop.CasStepIs` | iter.c:221-252 | every step of the retry loops is a step of the account |
| `DynamicLoop.CasRunIs` | iter.c:221-252 | and so is every interleaving of them |
| `DynamicLoop.CasRefinesLocked` | iter.c:221-252 | in every interleaving each range is the one the locked version hands out there, every range begins at an iteration, no iteration is run twice, and after a refusal all are run |
| `DynamicLoop.CasUnfit` | iter.c:221-252 | a chunk that does not fit has an interleaving with a wrong range |
| `DynamicLoop.CasExact` | iter_ull.c:222-253 | so the retry loops are right in every interleaving if and only if the clamped chunk fits |
| `DynamicLoop.DynamicExact` | iter.c:184-252 | in terms of the loop statement: every range of every run begins at an iteration, no iteration is run twice and all are run after a refusal, if and only if the chunk size fits, on whichever path mode selects |
| `DynamicLoop.UllDynamicExact` | iter_ull.c:149-253 | the same for unsigned loops, up or down |
| `DynamicLoop.WorkShare.FastNext` | iter.c:194-219 | the fetch-and-add and the clamps that follow it |
| `DynamicLoop.WorkShare.DynamicNext` | iter.c:184-219 | the method on the shared next adds the range to the run of the whole team |
| `DynamicLoop.WorkShare.DynamicNextLocked` | iter.c:147-176 | the locked method and the new value of next |
| `GuidedLoop.SizeBounds` | iter.c:270-288 | a guided chunk moves the counter by whole steps or to the end, and not past it |
| `GuidedLoop.GuidedNextIs` | iter.c:270-288 | the guided size in words, signed or unsigned, up or down, is the one in positions |
| `GuidedLoop.StepKeeps` | iter.c:294-338 | every pass of the guided retry loop keeps the account |
| `GuidedLoop.GuidedTheorem` | iter_ull.c:260-345 | in every interleaving every range begins at an iteration, no iteration is run twice, and after a refusal all are run |
| `GuidedLoop.GuidedUnfit` | iter.c:260-338 | a minimal chunk of 0 that cannot move the counter has a run with an empty range |
| `GuidedLoop.GuidedExact` | iter.c:260-338 | so the guided hand-out is right in every run if and only if the minimal chunk is not 0, or whole steps lead to the end and the rounding up does not wrap |
| `GuidedLoop.ZeroChunk` | iter.c:270-288 | a loop for which a minimal chunk of 0 fails |
| `Iterations.TripCountExact` | taskloop.c:58-72 | the number of iterations is right in both directions of the loop |
| `CountedLoops.WordCountExact` | iter_ull.c:70-74 | the words of the source compute that number whenever every intermediate result is representable, as section 2.6 of OpenMP 4.5 demands |
| `CountedLoops.ValueInWord` | iter.c:61-139 | every iteration is a word |
| `CountedLoops.ValueAfter` | iter.c:61-139 | the value after the last iteration is a word, or it wraps to a value before every iteration |
| `StaticSchedule.QuotientPositive` | ordered.c:341-348 | doacross wait never divides by zero |
| `StaticSchedule.BlockExactlyOnce` | iter.c:61-102 | without a chunk size iteration k belongs to exactly one thread, the one that doacross wait computes |
| `StaticSchedule.ChunkExactlyOnce` | iter.c:103-139 | with a chunk size it belongs to exactly one thread and trip, the thread that doacross wait computes, before any wrap |
| `StaticSchedule.TooManyIff` | iter.c:106-121 | a thread is served beyond its own trips exactly if its next start wraps to one below n |
| `StaticSchedule.RightIff` | iter.c:103-139 | and the schedule is right exactly if no thread is |
| `StaticSchedule.StaticExact` | iter.c:58-139 | in words, up or down: every iteration is run by exactly one range of one thread and no range is empty, if and only if the value after the last iteration is a word and every thread that is not stopped by trip -1 is refused at its first start past n modulo 2^64 |
| `StaticSchedule.OnceExact` | iter.c:103-139 | for chunks that reach no further than 2^64, every iteration is run exactly once if and only if the chunk size fits in that sense |
| `StaticSchedule.Guard` | iter.c:106-121 | the test a caller can make: n + nthreads * chunk is at most 2^64 |
| `StaticSchedule.ChunkWraps` | iter.c:106-121 | chunk sizes 2^62 and 0x5555555555555556 with 8 threads: iterations are run twice |
| `StaticSchedule.EndWraps` | iter.c:61-102 | a loop whose one iteration is lost because its end is no long |
| `StaticSchedule.PlanOwner` | ordered.c:421-433 | the owner in the plan is the entry that doacross wait looks at |
| `StaticSchedule.OwnerRuns` | ordered.c:421-433 | when the schedule is right that thread, and no other, runs the iteration |
| `StaticSchedule.StaticNext` | iter.c:38-139 | the range, return code and next trip of one request, signed or unsigned (iter_ull.c) |
| `StaticSchedule.ThreadRanges` | iter_ull.c:39-142 | a thread that asks until it is refused gets exactly the ranges of the trips it is served on |
| `StaticSchedule.SingleRunsAll` | iter.c:49-56 | a team of one runs all iterations in one range |
| `Taskloop.ExactlyOnce` | taskloop.c:286-317 | every iteration is run by exactly one task |
| `Taskloop.EvenlyFair` | taskloop.c:121-131 | quotient and remainder add up to all iterations |
| `Taskloop.ByGrainFair` | taskloop.c:107-120 | grain-sized tasks with one more iteration for the first ones add up to all iterations |
| `Taskloop.GrainSizes` | taskloop.c:89-132 | under grainsize every task gets at least the grain and less than twice the grain (section 2.9.2 of OpenMP 4.5) |
| `Taskloop.ChooseRight` | taskloop.c:86-150 | the chosen division covers all iterations in parts that are not empty: min(num_tasks, n) of balanced size, or n / grainsize but at least one, with sizes of at least min(grain, n) and below twice the grain |
| `Taskloop.ChooseByGrain` | taskloop.c:89-132 | the three branches of the grainsize clause |
| `Taskloop.ChooseByCount` | taskloop.c:133-150 | the num_tasks clause, or neither clause |
| `Taskloop.HandOut` | taskloop.c:286-317 | the loop that advances start, as a word, and lowers task_step once |
| `Taskloop.TaskRanges` | taskloop.c:57-150 | the ranges of all tasks, signed or unsigned |
| `Taskloop.TaskloopExact` | taskloop.c:57-317 | every iteration is run by exactly one task if and only if the value after the last iteration is a word or a grainsize leaves one task, which takes the end itself |
| `Taskloop.TaskEndWraps` | taskloop.c:286-317 | a loop whose one iteration is lost because its end is no long |
| `OrderedRing.TokenMoves` | ordered.c:194-226 | the head of the ring can always move, and by a step that changes the state |
| `HashMap.FindRow` | hashtab.h:146-166 | the row in use, its size and its prime |
| `HashMap.NewRow` | hashtab.h:297-304 | the size changes only if the table is too full or too empty, and then is the least of the table for twice the elements, which it holds at half occupancy |
| `HashMap.Table.constructor` | hashtab.h:229-246 | an empty table of at least the requested size |
| `HashMap.SmallTables` | hashtab.h:109-118 | the rows up to 1021, which serve every request up to that size, are prime |
| `StatePool.GetGlobalKeeps` | state.c:145-183 | taking up to 64 states from the global list keeps the pool conserved |
| `StatePool.GetNewKeeps` | state.c:185-197 | a new block keeps the pool conserved |
| `TaskSwitch.AscendingTheorem` | task.c:634-645 | in every state of every run ascending_tied_task is a tied explicit ancestor with no existing one between it and the task, and NULL only if no tied explicit ancestor exists any more; parent is the creator until that terminates |
| `TaskSwitch.CreationTheorem` | task.c:620-652 | a created task waits, is for ever the child of who ran then, and untied exactly if that was asked for; nothing else changes |
| `TaskSwitch.StaleAscending` | task.c:119-146 | a terminating tied task is given up by its own children but stays ascending_tied_task of deeper ones |
| `TaskSwitch.OfferedExact` | task.c:4617-4655 | each scheduling point accepts a fresh tied task exactly by who created whom and which tied tasks exist, unless an ascending_tied_task has terminated |
| `Blocking.Determined` | task.h:262-341 | there is one state in which all flags, sides and counters agree with what is said about each task |
| `Blocking.StepExact` | task.h:262-341 | every step is exact: its result is that one state for the kinds, parents and taskwait flags that the step leaves |
| `Blocking.SuspendEffect` | task.h:848-917 | a suspended tied task is TiedSuspended and an untied one Waiting, blocked exactly if in taskwait and its children demand it, on that side of its queues; the parent counts it, and nobody but tasks above it changes, more than a counter only if in taskwait |
| `LoopWords.LoopInitFor` | loop.c:37-46 | the stored loop has the iterations of the statement, in either direction |
| `LoopWords.UllInitFor` | loop_ull.c:36-48 | the same for unsigned loops |
| `LoopWords.StatementIs` | loop.c:37-46 | being right and complete for the stored loop is being right and complete for the statement |
| `LoopWords.FastExact` | loop.c:46-77 | exactly when the fast mode is set |
| `LoopWords.UllFastExact` | loop_ull.c:49-80 | exactly when the fast bit is set |
| `DynamicLoop.DynamicChunks` | iter.c:184-252 | if chunk times increment is a long, in every run the i-th range is the i-th chunk of chunk iterations, the last one cut at the end (section 2.7.1 of OpenMP 4.5) |
| `DynamicLoop.UllDynamicChunks` | iter_ull.c:149-253 | the same for unsigned loops, up or down |
| `GuidedLoop.AskedIsShare` | iter.c:275-278 | the number of steps asked for is the least that is at least the minimal chunk and an equal share of what is left |
| `GuidedLoop.GuidedSizes` | iter.c:294-338 | every range of every interleaving has that size, or takes what is left (section 2.7.1 of OpenMP 4.5) |
| `GuidedLoop.GuidedLoopExact` | loop.c:148-165 | in terms of the loop statement: right in every run exactly if the minimal chunk is not 0 or steps lead to the end without a wrap, and then with those sizes |
| `GuidedLoop.UllGuidedLoopExact` | iter_ull.c:260-345 | the same for unsigned loops, up or down |
| `Doacross.LoadsReturn` | ordered.c:463-486 | over the words of a post not before the awaited vector a wait returns after at most two passes, wherever it has come to |
| `Doacross.DoacrossProgress` | ordered.c:463-486 | so in every state of the protocol with such a post complete |
| `PriorityList.OrderStep` | priority_queue.h:266-554 | every operation leaves the awaited, plain, running and blocked tasks in the specified order: at the end of the segment asked for, behind the awaited ones, at the end |
| `PriorityList.OthersStay` | priority_queue.h:266-554 | and the other tasks in the order they had |
| `PriorityList.OrderTheorem` | priority_queue.h:266-554 | over every run the pointers spell that order |
| `WorkShares.StepGood` | work.c:38-200 | each access takes the thread and the lists exactly where they should go, and loses no share |
| `OrderedRing.StepGoes` | ordered.c:38-226 | what each step does to the order of the ring, the thread and the chunks |

## Left out

- Undeferred tasks that share the state of their parent, the suspension of an implicit task for an undeferred one, cancellation and work-first scheduling.
- Target tasks, offloading, OpenACC and plugins; environment parsing, interrupts, assembly of context switches, timing and auditing code.
- The lock queue (`PQ_LOCKED`), critical sections and locks; barriers, `parallel` and `single` constructs; taskgroups as such, whose queues behave like children queues.
- Weak memory orders: shared accesses are sequentially consistent steps. Allocation failure.
- Plain (not ULT) priority trees without HP-LIST: their insertion and removal are those of `SplayTree`.
- Ordered regions in static loops and in teams of one thread, where they need no token, and the barrier versions of the end of a work share.
- Depend: identifiers of tasks are never reused, the parent outlives its children with dependences, and one ready set per parent stands for its queues.
- DependEngine.DependHash: the hash slots are a finite map from addresses, which is what HashMap proves the table to be; `slot` pointers into the table do not outlive one clause.
- Depend.CreateKeeps: clauses arrive with the `out` and `inout` ones first, as the compiler emits them.
- TaskSwitch: which task a scheduling point picks among those it may run is not fixed; every choice is covered.
- Blocking: counts children in the tied and untied queue together, as the conditions in task.h do.
- PriorityQueue.Queue.Perform: `task->kind` of a queued task is given by a function that agrees with its segment, since kind is written by the callers; priorities are not negative; an operation above priority 0 on a queue whose one list holds blocked tasks only is excluded, because the transfer then loses them (`PriorityQueue.BlockedOnlyIsLost`).
- PriorityQueue.NextOfTwo: a call whose kind test can hide a schedulable head is excluded; task.c:2133 tests tied suspended tasks for WAITING, but it runs in the implicit task, when no tied task is suspended on the thread (`TaskSwitch.ImplicitRunsAlone`).
- HashMap.Table.constructor: that the size in use is prime is proved up to 1021 (`HashMap.SmallTables`) and a hypothesis about that one row (`RowPrime`) for larger tables; a requested size above 2147483647 is excluded, because the probe step can wrap in the only larger row.
- HashMap.NewRow: the same hypothesis about the row it chooses.
- HashMap.Table.Expand: the same hypothesis, and tables with more than 2^30 elements are excluded for the same reason.
- HashMap.Table.Insert: the same hypothesis and the same bound.
- StaticSchedule.StaticExact: the number of iterations can be computed without overflow, as section 2.6 of OpenMP 4.5 demands of the program; the same holds for Taskloop.TaskloopExact, and Iterations.TripCountExact speaks of integers.
- DynamicLoop.DynamicExact: that `end - start` of a signed loop is representable is assumed, as the source does.
- Taskloop.TaskRanges: a grainsize of 0 (a division by zero in the source) is excluded; the products that give task_step are integers, since they are at most the loop's own length.
- WorkShares: shares of orphaned constructs and the barrier that ends a parallel region.
- StatePool: contexts and stacks inside a task state; the thresholds that decide when a surplus moves only narrow the runs covered.
