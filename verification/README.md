# Verified models of the task pool, k-means, hazard-pointer and section-tracking code

This project models, in Dafny, the parts of the repository whose correctness is hardest to see by
reading one function, and proves what they promise. Numbers are exact: coordinates, distances and
costs are `real`, and atomic operations are sequentially consistent steps.

* **Hazard-pointer reclamation.** `HazardScan` holds the two scans as methods on a bounded array.
  `HazardProtocol` is the whole protocol as a step system: any number of threads allocate, reuse
  and release records, publish, validate and clear guards, retire objects, scan slot by slot and
  adopt what dead or released threads left behind. `HazardStructure`, `HazardAccounts`,
  `HazardGuards`, `HazardRoom` and `HazardOwners` prove its invariants, `HazardSafety` states the
  results about safety, `HazardWalks` what the walks down the record list reach, `HazardProgress`
  that every call ends, and `HazardRuns` holds runs that show why the protocol is as it is.
  Publishing and validating a guard, retiring an object and reusing freed memory are steps of the
  environment; a guard counts as validated only if its object was still live after publication.
* **Dynamic hazard-pointer scan.** `LiberateSet` is the intrusive hash set on the heap, with both
  of its link fields rewritten in place; `DynamicScan` is the scan built on it.
* **Lloyd k-means.** `Points` and `Lloyd` hold the mathematics (mean/variance decomposition,
  descent, termination over finitely many assignments, fixed points), `LloydLoop` the loop over
  passes for both ways of treating an empty cluster; `KmeansSingleThread` and `KmeansMultiThread`
  are the two loops as methods, proved against it. `Seeding` and `KmeansPP` are the two ways of
  choosing the first centres. `ResetExits` says where the single-thread loop can end.
* **Task pool.** `TaskRanges` is the division of the points into twelve tasks, `BlockingList` the
  linked queue, `ThreadPool` the step system of caller and workers, `PoolProgress` that the work
  gets done.
* **Keyed locks.** `IndexLocker` is the lock table as a step system, with threads that hold any
  number of keys.
* **Section tracking and generators.** `SectionTrees` and `SectionWalk` say what trackers remember
  between and during cycles, `SectionTracker` is the tracker classes and the cycle loop,
  `Generators` the odometer over generator indices.

`Collections` and `Wrappers` hold what several of these share. To verify everything, run
`dafny verify dfyconfig.toml` in this directory.

Three promises do not hold as they stand. Each is proved with an input on which it fails and with
the condition under which it holds.

* The in-place hazard scan keeps and frees what the classic one does exactly when every guarded
  pointer of the array is seen in a used record and retired once
  (`HazardScan.InplaceRefinesClassic`). A guard seen only in a record marked free makes a difference,
  and so does a duplicate (`HazardScan.StaleGuardDiffers`, `HazardScan.DuplicateDiffers`). The first
  is reached when a thread dies with a guard set and HelpScan adopts its record while the object is
  retired elsewhere (`HazardRuns.StaleGuardIsReached`).
* The dynamic scan ends exactly when no guarded object is retired twice, because its loop over
  duplicates never advances its pointer (`DynamicScan.Scan`, `DynamicScan.ScanNeverEnds`).
* The single-thread k-means loop resets empty clusters to the origin, and may then return a
  clustering that is not a fixed point, from seeds that its own seeding chooses
  (`ResetExits.ResetCanStopEarly`). Whatever the seeds, the result is a fixed point if in no
  assignment that leaves a cluster of lower number empty a point is exactly as near to the origin as
  to the mean of its cluster (`ResetExits.WithoutMeanTiesEndsFixed`). That asks of the points alone
  that certain distances differ; points far from the origin have no such tie
  (`ResetExits.FarPointsEndFixed`). Not every such tie does harm (`ResetExits.TieCanBeHarmless`); in
  terms of the result, it is a fixed point exactly if assigning the points once more changes no index
  (`KmeansSingleThread.ExitFixedIff`).

## Model

| member | source | states |
|---|---|---|
| HazardScan.RetiredVector.Push | src/libcds/src/hp_gc.cpp:223 | the array gains the pointer at its end and changes nowhere else |
| HazardScan.CollectHazards | src/libcds/src/hp_gc.cpp:187-204 | the list holds exactly the non-null values of all slots |
| HazardScan.Sort | src/libcds/src/hp_gc.cpp:206 | the result is sorted and a permutation of the input |
| HazardScan.BinarySearch | src/libcds/src/hp_gc.cpp:222 | finds a value exactly if it is there |
| HazardScan.ClassicScan | src/libcds/src/hp_gc.cpp:183-233 | keeps exactly the entries some slot holds, in their order, compacting the array in place, and frees the others |
| HazardScan.LowerBound | src/libcds/src/hp_gc.cpp:283 | the first entry not below the value, wherever the array is partitioned by it |
| HazardScan.MarksKeepOrder | src/libcds/src/hp_gc.cpp:278-290 | marking low bits leaves the array partitioned by every even value, so later searches stay right |
| HazardScan.MarksKeepStrictOrder | src/libcds/src/hp_gc.cpp:284-287 | entries of different pointers stay strictly ordered whatever is marked |
| HazardScan.MarkSlot | src/libcds/src/hp_gc.cpp:280-288 | one slot value marks its entry, the first of equal ones, and nothing else |
| HazardScan.MarkAll | src/libcds/src/hp_gc.cpp:271-293 | after reading all records not marked free, exactly the guarded entries are marked |
| HazardScan.Compact | src/libcds/src/hp_gc.cpp:295-312 | moves the marked entries to the head, unmarked, without overwriting an unread one, and frees the rest |
| HazardScan.InplaceScan | src/libcds/src/hp_gc.cpp:235-315 | keeps one copy of each guarded pointer and frees the rest; with an odd pointer it does what the classic scan does |
| HazardScan.KeptCount | src/libcds/src/hp_gc.cpp:220-229 | a classic scan keeps all copies of a guarded pointer, none of another, and every copy is kept or freed |
| HazardScan.KeptInPlaceCount | src/libcds/src/hp_gc.cpp:298-309 | an in-place scan keeps exactly one copy of each pointer some used record guards |
| HazardScan.InPlaceParts | src/libcds/src/hp_gc.cpp:298-309 | every entry is kept or freed by the in-place scan, never both |
| HazardScan.InplaceRefinesClassic | src/libcds/src/hp_gc.cpp:235-315 | both scans keep the same bag, and free the same bag, if and only if every guarded pointer is seen in a used record and retired once |
| HazardScan.StaleGuardDiffers | src/libcds/src/hp_gc.cpp:276-277 | with the only guard of an object in a record marked free the classic scan keeps the object and the in-place scan frees it |
| HazardScan.DuplicateDiffers | src/libcds/src/hp_gc.cpp:283-288 | of a guarded pointer retired twice the classic scan keeps both copies, the in-place scan frees one |
| HazardScan.ClassicScanBounds | src/libcds/src/hp_gc.cpp:209-229 | distinct retired pointers: at most as many are left as there are slots |
| HazardScan.InplaceScanBounds | src/libcds/src/hp_gc.cpp:298-312 | at most as many pointers are left as there are slots, repeated or not |
| HazardStructure.StepStructured | src/libcds/src/hp_gc.cpp:128-169 | every step keeps the record list a list in decreasing link order, each thread's records owned by it, and free records empty |
| HazardStructure.OthersKeep | src/libcds/src/hp_gc.cpp:136-141 | what one thread relies on is untouched by the steps of the others |
| HazardAccounts.StepAccounts | src/libcds/src/hp_gc.cpp:209-229 | every step keeps each record's pending objects distinct and equal to those accounted to it |
| HazardAccounts.CopyAccounts | src/libcds/src/hp_gc.cpp:361-368 | copying moves one object from the adopted record's account to the helper's |
| HazardGuards.FreeIsSafe | src/libcds/src/hp_gc.cpp:222-227 | the object a sweep is about to free is under no validated guard |
| HazardGuards.ReadAhead | src/libcds/src/hp_gc.cpp:193-204 | walking the list, with or without skipping free records, a guarded slot not yet read stays ahead or is read |
| HazardGuards.OtherCovers | src/libcds/src/hp_gc.cpp:271-293 | no step of another thread endangers a guard a running scan relies on |
| HazardGuards.StepInv | src/libcds/src/hp_gc.cpp:128-380 | every step keeps the whole invariant: list, ownership, accounts and guards |
| HazardGuards.RunInv | src/libcds/src/hp_gc.cpp:128-380 | the invariant holds in every state of every run |
| HazardRoom.RankBounded | src/libcds/src/hp_gc.cpp:151-154 | a record's place in the list is at most the number of records |
| HazardRoom.KeptFits | src/libcds/src/hp_gc.cpp:209-229 | what a sweep has kept is at most one object per slot |
| HazardRoom.RunRoom | src/libcds/src/hp_gc.cpp:348-378 | in every run a thread inside HelpScan has room while all slots together are fewer than the array's places |
| HazardSafety.GuardedIsNotFreed | src/libcds/src/hp_gc.cpp:183-315 | in every run an object under a validated guard has not been freed, and the guard's record still belongs to a live thread |
| HazardSafety.OnlyUnguardedIsFreed | src/libcds/src/hp_gc.cpp:222-227 | whatever a step frees was retired and held by no validated guard |
| HazardSafety.OnePlace | src/libcds/src/hp_gc.cpp:361-372 | a retired object is pending exactly once, in exactly one record, during copying as well; a freed one nowhere |
| HazardSafety.RetiredUntilFreed | src/libcds/src/hp_gc.cpp:209-229 | a retired object is lost by no step: it stays in some record until a step frees it, or until a thread dies in the middle of a classic scan |
| HazardSafety.LeakedForGood | src/libcds/src/hp_gc.cpp:213-229 | what such a death leaks is never freed, retired or handed out again: a classic scan clears its array first |
| HazardSafety.FreedOncePerLife | src/libcds/src/hp_gc.cpp:222-229 | between two frees of an object it has been handed out again and then retired again |
| HazardSafety.OneHolder | src/libcds/src/hp_gc.cpp:136-141 | no record is held by two threads, whether allocated or adopted, and none is both for one thread |
| HazardSafety.OnlyHolderWrites | src/libcds/src/hp_gc.cpp:325-376 | only the owner of a record changes its retired array |
| HazardSafety.FreeRecordIsEmpty | src/libcds/src/hp_gc.cpp:327-329 | a record marked free has no retired object |
| HazardSafety.ScanLeavesFew | src/libcds/src/hp_gc.cpp:209-229 | a scan that ends leaves at most one retired object per slot of the records there are |
| HazardSafety.PushFits | src/libcds/src/hp_gc.cpp:348-366 | with more places than slots the not-full assertion holds for every record visited and every push fits |
| HazardSafety.NeverStuck | src/libcds/src/hp_gc.cpp:128-380 | inside the collector a thread always has a next step; nothing waits for another thread |
| HazardOwners.OwnerIsHolder | src/libcds/src/hp_gc.cpp:136-170 | a live thread is entered as a record's owner exactly while it holds the record, as its own or by adoption |
| HazardOwners.ReleasedSlotsAreNull | src/libcds/src/hp_gc.cpp:164 | from the first scan of a release until the owner is erased all slots of the record are null |
| HazardOwners.CopyScansWhenFull | src/libcds/src/hp_gc.cpp:362-366 | copying is interrupted by a scan only when the helper's array is full |
| HazardOwners.SkipsFreeInPlace | src/libcds/src/hp_gc.cpp:246-277 | a scan passes over records marked free exactly if in-place scans are configured and all its pointers are even; its array is then sorted |
| HazardWalks.NewRecordOnlyIfAllInUse | src/libcds/src/hp_gc.cpp:134-155 | a thread makes a new record only if it has seen an owner in every record that was linked when it set out |
| HazardWalks.AttachReuses | src/libcds/src/hp_gc.cpp:134-141 | a thread that attaches alone while some linked record has no owner takes one and makes none |
| HazardWalks.ReleaseLeavesNoOrphan | src/libcds/src/hp_gc.cpp:325-378 | from the call of a release to its last step, every record linked at the call was seen free or owned by a live thread other than by the caller's adoption: HelpScan passes over none that is abandoned |
| HazardWalks.AdoptsOnlyUsed | src/libcds/src/hp_gc.cpp:327-329 | what HelpScan adopts was not marked free at some time since the call |
| HazardWalks.ScanLeavesOnlyHeld | src/libcds/src/hp_gc.cpp:183-315 | every object a scan leaves in the array was in some slot at some time since the call; what nobody holds is freed |
| HazardWalks.ReleaseLeavesOnlyHeld | src/libcds/src/hp_gc.cpp:165-166 | the same for what a releasing thread leaves behind, what it has adopted included |
| HazardProgress.StepNearer | src/libcds/src/hp_gc.cpp:128-380 | every step of a thread's own inside the collector, other than trying to link a new record, brings it nearer to the end of its call |
| HazardProgress.FinishesAlone | src/libcds/src/hp_gc.cpp:128-380 | from every state of every run a thread ends its call by its own steps, whatever the others have left undone |
| HazardRuns.StaleGuardIsReached | src/libcds/src/hp_gc.cpp:319-380 | one slot per record, any capacity: a run of three threads reaches a record marked free with a guard left in it and another thread's array with the guarded object, on which the two scans differ |
| HazardRuns.CopierDeath | src/libcds/src/hp_gc.cpp:361-372 | a helper that died while copying would leave an object waiting in two records |
| HazardRuns.SweeperDeath | src/libcds/src/hp_gc.cpp:295-312 | a thread that died in an in-place sweep would leave an object it has freed waiting in its record |
| LiberateSet.LiberateSet.Insert | src/libcds/src/dhp_gc.cpp:75-96 | the node joins the bag of its pointer; every other bag stays |
| LiberateSet.LiberateSet.InsertSecond | src/libcds/src/dhp_gc.cpp:83-89 | a duplicate goes right behind the head of its bag |
| LiberateSet.LiberateSet.Erase | src/libcds/src/dhp_gc.cpp:98-118 | detaches exactly the bag of one pointer, linked as it was, and returns its head, or null |
| LiberateSet.LiberateSet.Bypass | src/libcds/src/dhp_gc.cpp:106-111 | the links around the erased head are closed and it keeps no successor |
| LiberateSet.LiberateSet.FreeChain | src/libcds/src/dhp_gc.cpp:136-154 | one bucket's bags are freed in order and end up as one list |
| LiberateSet.LiberateSet.FreeAll | src/libcds/src/dhp_gc.cpp:122-162 | frees every node left once and returns one list of exactly those nodes, ending in null |
| LiberateSet.LiberateSet.FlatIsEverything | src/libcds/src/dhp_gc.cpp:122-162 | bucket by bucket, bag by bag, every node of the set comes up exactly once |
| DynamicScan.InsertAll | src/libcds/src/dhp_gc.cpp:205-214 | the whole retired list moves into the set |
| DynamicScan.TakeDuplicates | src/libcds/src/dhp_gc.cpp:240-245 | the loop ends exactly when there is no duplicate: it never advances its pointer |
| DynamicScan.TakeGuarded | src/libcds/src/dhp_gc.cpp:225-247 | one guard takes exactly its pointer's bag onto the busy list |
| DynamicScan.TakeAllGuarded | src/libcds/src/dhp_gc.cpp:222-248 | all guards together take exactly the guarded nodes, and the loop ends exactly when none is retired twice |
| DynamicScan.Scan | src/libcds/src/dhp_gc.cpp:197-268 | splits the retired list exactly into guarded nodes pushed back, counted, and those whose free function it calls, once each; ends exactly when no guarded object is retired twice |
| DynamicScan.ScanNeverEnds | src/libcds/src/dhp_gc.cpp:240-245 | two nodes retired for one guarded pointer: the scan does not complete in any number of turns |
| DynamicScan.Ceil2Least | src/libcds/src/dhp_gc.cpp:203 | the number of buckets is a power of two, and half of it would be too few |
| Points.Dist2Concat | src/kmeans/userData/point.h:95-102 | coordinates add up: the squared distance of concatenated points is the sum of the parts' |
| Points.Dist2OnLine | src/kmeans/userData/point.h:95-102 | one coordinate contributes the square of its difference |
| Points.Dist2Definite | src/kmeans/userData/point.h:68-102 | a squared distance is never negative and vanishes exactly on equal points |
| Points.Dist2Shift | src/kmeans/userData/point.h:68-102 | how a squared distance changes when its reference point moves |
| Lloyd.FirstNearestIsUnique | src/kmeans/multiThread/helpers.h:14-34 | being the first nearest centre determines the centre |
| Lloyd.MeanDecomposition | src/kmeans/multiThread/kmeansMultiThread.h:226-238 | cost(c) = cost(mean) + n times the squared distance of c to the mean, cluster by cluster |
| Lloyd.MeansAreOptimal | src/kmeans/multiThread/kmeansMultiThread.h:309-315 | the means are the cheapest centres for an assignment, and the only cheapest ones up to empty clusters |
| Lloyd.NearestIsCheapest | src/kmeans/multiThread/helpers.h:14-34 | nearest centres are the cheapest assignment |
| Lloyd.Sandwich | src/kmeans/multiThread/kmeansMultiThread.h:266-315 | the cost of the means lies between the costs of two passes, whatever becomes of empty clusters |
| Lloyd.KeepDescends | src/kmeans/multiThread/kmeansMultiThread.h:226-315 | no pass of the multithreaded loop raises the cost |
| Lloyd.ResetDescends | src/kmeans/singleThread/kmeansSingleThread.h:177-200 | no pass of the single-thread loop raises the cost |
| Lloyd.KeepStalls | src/kmeans/multiThread/kmeansMultiThread.h:266-315 | when empty clusters keep their centre, the cost stands still exactly when the centres do |
| Lloyd.MeasureDecreases | src/kmeans/singleThread/kmeansSingleThread.h:165-207 | each drop of the cost lowers the number of assignments cheaper than it plus those not dearer |
| Lloyd.MeasureBound | src/kmeans/singleThread/kmeansSingleThread.h:165-207 | that number is at most twice the number of assignments |
| Lloyd.ProgressStep | src/kmeans/singleThread/kmeansSingleThread.h:167-207 | every turn of the loop, the first and second included, leaves fewer turns to come |
| Lloyd.FixedPointIffUnmoved | src/kmeans/multiThread/kmeansMultiThread.h:266-324 | a clustering is a fixed point exactly if a further pass changes neither indexes nor centres |
| Lloyd.ZeroCostIsFixed | src/kmeans/multiThread/kmeansMultiThread.h:257-266 | leaving the loop at once with cost 0 is leaving it at a fixed point |
| LloydLoop.LoopStep | src/kmeans/multiThread/kmeansMultiThread.h:266-324 | under either rule for empty clusters every further pass follows from the last and leaves fewer passes to come |
| LloydLoop.LoopEnd | src/kmeans/singleThread/kmeansSingleThread.h:167-207 | under either rule the loop ends at the first pass whose cost repeats, the cost having fallen strictly until then |
| LloydLoop.StopsOnce | src/kmeans/multiThread/kmeansMultiThread.h:266-270 | there is only one number of passes after which the loop can stop |
| LloydLoop.NeverDearer | src/kmeans/multiThread/kmeansMultiThread.h:266-324 | under either rule no number of passes makes the clustering dearer than it was at first |
| KmeansSingleThread.FindNearest | src/kmeans/singleThread/kmeansSingleThread.h:64-82 | the first nearest centre and its squared distance |
| KmeansSingleThread.MakeClusters | src/kmeans/singleThread/kmeansSingleThread.h:130-145 | every point gets the number of its first nearest centre |
| KmeansSingleThread.Accumulate | src/kmeans/singleThread/kmeansSingleThread.h:179-186 | cluster sums, cluster sizes and the cost with the old centres, from cleared buffers |
| KmeansSingleThread.Divide | src/kmeans/singleThread/kmeansSingleThread.h:191-197 | means in the new buffer, the origin for empty clusters, old buffer and counters cleared |
| KmeansSingleThread.Pass | src/kmeans/singleThread/kmeansSingleThread.h:173-200 | one pass over the swapped buffers computes one Lloyd step and leaves the other buffer cleared |
| KmeansSingleThread.Kmeans | src/kmeans/singleThread/kmeansSingleThread.h:148-215 | the loop terminates on every input within a bound, at the first pass whose cost repeats, and returns that iterate |
| KmeansSingleThread.StallSettles | src/kmeans/singleThread/kmeansSingleThread.h:167-207 | when the cost stands still the assignment does, exactly if no point ties with a reset centre of lower number |
| KmeansSingleThread.ExitWithoutTies | src/kmeans/singleThread/kmeansSingleThread.h:167-215 | without such ties the returned clustering is a fixed point, empty clusters or not |
| KmeansSingleThread.ExitFixedIff | src/kmeans/singleThread/kmeansSingleThread.h:167-215 | for every input the returned clustering is a fixed point exactly if assigning the points to the returned centres changes no index |
| ResetExits.WithoutMeanTiesEndsFixed | src/kmeans/singleThread/kmeansSingleThread.h:148-215 | from any first centres the loop returns a fixed point, empty clusters or not, if no point ties between the origin and a mean of points it can be clustered with |
| ResetExits.FarPointsEndFixed | src/kmeans/singleThread/kmeansSingleThread.h:148-215 | in particular if every point is nearer to every other point than to the origin |
| ResetExits.ResetCanStopEarly | src/kmeans/singleThread/kmeansSingleThread.h:191-207 | points -10, 1, 1.1, 2, 3.9: seeding can choose -10, -10, 2, and the loop then stops at a clustering that is no fixed point |
| ResetExits.TieCanBeHarmless | src/kmeans/singleThread/kmeansSingleThread.h:191-207 | points -10, 1, 2, 3 with the same seeds: a point ties with a mean and with a reset centre, and the loop still ends at a fixed point |
| TaskRanges.RangesAreEven | src/kmeans/multiThread/kmeansMultiThread.h:261-296 | eleven tasks get equally many points and the last one fewer than eleven |
| TaskRanges.RangesPartition | src/kmeans/multiThread/kmeansMultiThread.h:261-296 | every point lies in exactly one of the twelve ranges and no range goes beyond the points |
| KmeansMultiThread.FindNearest | src/kmeans/multiThread/helpers.h:14-34 | the first nearest centre and its squared distance |
| KmeansMultiThread.CKmeans.Execute | src/kmeans/multiThread/kmeansMultiThread.h:55-70 | a task writes the points of its range, and no others |
| KmeansMultiThread.CKmeans.MakeClusters | src/kmeans/multiThread/kmeansMultiThread.h:125-147 | the twelve tasks together assign every point to its first nearest centre |
| KmeansMultiThread.CKmeans.Accumulate | src/kmeans/multiThread/kmeansMultiThread.h:226-238 | cluster sums, cluster sizes and the cost with the centres used |
| KmeansMultiThread.CKmeans.Recentre | src/kmeans/multiThread/kmeansMultiThread.h:309-315 | means, an empty cluster keeping its centre; accumulators cleared |
| KmeansMultiThread.CKmeans.Kmeans | src/kmeans/multiThread/kmeansMultiThread.h:246-330 | the loop terminates on every input within a bound, at the first pass whose cost repeats, and counts its passes; centres and indexes are then a fixed point no dearer than the start |
| KmeansMultiThread.ExitIsFixed | src/kmeans/multiThread/kmeansMultiThread.h:266-324 | leaving the loop, at a repeated cost or at cost 0 in the first pass, means the centres no longer move |
| ThreadPool.ParallelAssignment | src/kmeans/multiThread/kmeansMultiThread.h:133-140 | under every interleaving, when all waits have returned the indexes are the sequential assignment |
| ThreadPool.DisjointWrites | src/threadsafe/threadpool.cpp:49-69 | two workers inside Execute are never at the same point |
| ThreadPool.TaskConservation | src/threadsafe/threadpool.cpp:26-62 | each task is in exactly one of queued, in a worker or notified; tasks start once, in the order added, and are notified only when their range is done |
| ThreadPool.PassEndsClean | src/kmeans/multiThread/kmeansMultiThread.h:299-301 | after the last wait the queue is empty and no worker holds a task |
| PoolProgress.WorkerDrains | src/threadsafe/threadpool.cpp:47-69 | from every state of every run an awake worker, by its own steps alone and without a choice, comes to wait at an empty queue; every task that was queued, and its own, is then notified and its range written |
| PoolProgress.PassCanFinish | src/kmeans/multiThread/kmeansMultiThread.h:133-140 | from every state of every run with a worker the caller's last wait can still return |
| ThreadPool.RunInv | src/threadsafe/task.cpp:13-36 | conservation, order and written prefixes hold in every state of every run |
| BlockingList.List.PushBack | src/threadsafe/blocking/list.h:35-51 | the list refines a sequence: the value joins it at the end |
| BlockingList.List.PopFront | src/threadsafe/blocking/list.h:53-74 | takes the first value, or reports an empty list |
| BlockingList.List.Empty | src/threadsafe/blocking/list.h:76-80 | says whether the 32-bit size is zero, which is emptiness up to 2^32 entries |
| BlockingList.List.Size | src/threadsafe/blocking/list.h:82-86 | the number of entries modulo 2^32 |
| IndexLocker.MutualExclusion | src/threadsafe/locks.h:30-57 | in every run at most one client holds a key |
| IndexLocker.EntriesMatchUse | src/threadsafe/locks.h:33-55 | the counter is the number of clients counted in, and with the global mutex free an entry exists exactly for the keys in use |
| IndexLocker.WaitersObjectLives | src/threadsafe/locks.h:35-38 | the object a client waits on or holds is still the one in the table |
| IndexLocker.EraseIsSafe | src/threadsafe/locks.h:52-54 | when an entry is erased nobody else refers to its object |
| IndexLocker.GlobalHolderMoves | src/threadsafe/locks.h:32-41 | the holder of the global mutex always has a next step, so it never blocks on a key |
| IndexLocker.NoDeadlock | src/threadsafe/locks.h:30-57 | threads may hold several keys: if each asks only for keys of higher rank than those it holds, then while a client is inside lock or unlock or holds a key, some client that is can step and its thread is free to |
| IndexLocker.DisciplinedRunsGoOn | src/threadsafe/locks.h:30-57 | in every run in which threads call lock in increasing rank that is so in every state |
| IndexLocker.OppositeOrdersDeadlock | src/threadsafe/locks.h:35-38 | two threads that take two keys in opposite orders reach a state in which neither can go on |
| IndexLocker.SessionsEnd | src/threadsafe/locks.h:30-57 | while no session begins, all clients together take at most twelve steps each, in any order |
| IndexLocker.RunInv | src/threadsafe/locks.h:30-57 | ownership, counters and table agree in every state of every run |
| SectionTrees.CompleteEnteredAll | src/catchTest/single_include/catch.hpp:5669-5671 | a complete section has had all its leaves entered, in order |
| SectionTrees.CyclesCountLeaves | src/catchTest/include/internal/catch_run_context.hpp:99-106 | the cycles needed are the leaves plus the sections whose last kid is a failing leaf |
| SectionTrees.NothingLeftOpen | src/catchTest/single_include/catch.hpp:5669-5671 | without failures there are no such sections |
| SectionTrees.CyclesBounded | src/catchTest/include/internal/catch_run_context.hpp:99-106 | they are at most the number of sections |
| SectionTrees.LeavesAreDistinct | src/catchTest/single_include/catch.hpp:5622-5627 | with distinct sibling names no two leaves are the same |
| SectionWalk.WalkOpens | src/catchTest/single_include/catch.hpp:5709-5727 | the first kid that is not complete runs, and that accounts for the leaf entered and the cycle spent |
| SectionWalk.WalkDiscovers | src/catchTest/single_include/catch.hpp:5713-5725 | after the cycle is complete kids are discovered but not opened |
| SectionWalk.CloseAfterWalk | src/catchTest/single_include/catch.hpp:5651-5686 | asking only the last kid is enough: a section closes for good exactly when nothing in it is left, and one cycle fewer is to come |
| SectionTracker.Tracker.FindChild | src/catchTest/single_include/catch.hpp:5622-5627 | the first child of that name |
| SectionTracker.Tracker.OpenChild | src/catchTest/single_include/catch.hpp:5633-5639 | everything from the tracker upward is executing children, up to the first that was already; nothing else changes |
| SectionTracker.Tracker.Close | src/catchTest/single_include/catch.hpp:5651-5679 | the current tracker and those above it up to this one are closed, each by the last child it has then; one that is not open is refused, and it and those above stay as they are |
| SectionTracker.Tracker.Fail | src/catchTest/single_include/catch.hpp:5680-5686 | the leaf has failed and its parent needs another run |
| SectionTracker.Acquire | src/catchTest/single_include/catch.hpp:5709-5727 | finds or discovers the child and opens it unless cycle or child is complete; the other children stay |
| SectionTracker.RunContext.SectionStarted | src/catchTest/include/internal/catch_run_context.hpp:153-172 | true exactly if the section is open after being acquired |
| SectionTracker.RunContext.SectionEnded | src/catchTest/include/internal/catch_run_context.hpp:186-197 | closes the innermost active section, if there is one |
| SectionTracker.RunContext.SectionEndedEarly | src/catchTest/include/internal/catch_run_context.hpp:199-207 | fails the section a throw leaves first, closes those around it |
| SectionTracker.RunContext.RunSection | src/catchTest/include/internal/catch_run_context.hpp:153-207 | one section of the body, opened or passed over, with everything below it |
| SectionTracker.RunContext.RunTest | src/catchTest/include/internal/catch_run_context.hpp:99-106 | whatever leaves throw, every leaf is entered exactly once and from left to right, in exactly the cycles counted, at most one more than there are sections; without failures every cycle opens the path to one leaf |
| Generators.TupleOfValue | src/catchTest/include/internal/catch_generators_impl.hpp:64-72 | index tuples and the numbers below the product correspond one to one |
| Generators.ValueOfTuple | src/catchTest/include/internal/catch_generators_impl.hpp:64-72 | the other half of that correspondence |
| Generators.GeneratorInfo.MoveNext | src/catchTest/include/internal/catch_generators_impl.hpp:28-34 | goes up by one in 64 bits, or back to zero and says so; a size of 0 means 2^64 positions |
| Generators.GeneratorsForTest.GetGeneratorInfo | src/catchTest/include/internal/catch_generators_impl.hpp:53-62 | the generator of that name or a new one, of any size; the combination in progress stays the same |
| Generators.GeneratorsForTest.MoveNext | src/catchTest/include/internal/catch_generators_impl.hpp:64-72 | addition of one in mixed radix, true exactly while there is a next combination |
| Generators.RunAll | src/catchTest/include/internal/catch_run_context.hpp:99-109 | from all zeros the test runs once per combination and the generators are back at all zeros |
| Generators.EachOnce | src/catchTest/include/internal/catch_run_context.hpp:99-109 | every combination is among those runs, and no two runs have the same |
| Seeding.NearestShared | src/kmeans/kmeansRosettaCode.cpp:36-60 | two loops over one counter still find the first nearest centre |
| Seeding.PickBy | src/kmeans/kmeansRosettaCode.cpp:79-86 | picks the first index whose inclusive sum of distances reaches the draw |
| Seeding.TotalPositive | src/kmeans/kmeansRosettaCode.cpp:72-78 | the sum of distances is positive exactly while some point is not a centre |
| Seeding.PickIsNew | src/kmeans/kmeansRosettaCode.cpp:79-85 | a draw above 0 and at most the sum picks a point that is not a centre yet |
| Seeding.Kpp | src/kmeans/kmeansRosettaCode.cpp:62-91 | each centre is the one its draw picks, or what stood there before; every point gets its first nearest centre |
| Seeding.SeedsAreDistinct | src/kmeans/kmeansRosettaCode.cpp:62-87 | with good draws the centres are input points, no two alike |
| Seeding.KppSeparates | src/kmeans/kmeansRosettaCode.cpp:62-91 | with fractions above 0 and at most 1 and enough distinct points, centres are distinct and no cluster is empty |
| KmeansPP.Seed | src/kmeans/multiThread/kmeans_pp.h:16-52 | each centre is the one its draw picks by distances to the whole vector, waiting entries included |
| KmeansPP.SeedsAreDistinctHere | src/kmeans/multiThread/kmeans_pp.h:33-51 | with good draws the centres are distinct input points, and none equals an entry still waiting then |

## Left out

- KmeansSingleThread.ExitWithoutTies: one direction only; its converse is false (ResetExits.TieCanBeHarmless), and the exact condition for the result is KmeansSingleThread.ExitFixedIff.
- ResetExits.WithoutMeanTiesEndsFixed: one direction only; the converse is false (ResetExits.TieCanBeHarmless), since a tie need not be met, and moving a tied point may itself lead to a fixed point.
- Floating point: rounding, overflow and NaN; coordinates, distances and costs are exact reals.
- Memory orders and fences: every atomic access is one sequentially consistent step; `is_thread_alive` is exact and thread ids are not reused.
- A thread that dies while it copies an adopted array, or in an in-place scan once the marks are set: there the protocol would not be safe (HazardRuns.CopierDeath, HazardRuns.SweeperDeath). Everywhere else, inside the collector as well, a thread may die at any step; a death in a classic sweep is modelled where classic scanning is configured, not where an in-place scan falls back to it.
- The types of the hazard-pointer headers: they are not part of this model; the retired array is a bounded array whose clearing resets only the count, and retiring refuses when it is full.
- HelpScan called from elsewhere than the release of a record.
- detachAllThread, the collectors' destructors, statistics and getInternalState.
- The hash of the liberate set: any function; the bucket is its value modulo the number of buckets, which for a power of two is the mask of the code.
- Privatising the dynamic scan's retired buffer and reading its guards concurrently: both are inputs of the scan, as one snapshot; the allocator's epochs are not modelled.
- DynamicScan.TakeDuplicates: the loop that never advances is given a number of turns, after which it is reported as not completed; for every number of turns the outcome is the same.
- Waking a sleeping worker and shutdown: notifications can be lost, so that a queued task may wait for a worker that nobody wakes, and `m_isRunning` is never seen false.
- A worker that is still inside `set_value` when the caller clears the tasks: notification is one step, so ThreadPool.PassEndsClean does not see it.
- BlockingList.List.PushBack: the list's own mutex is modelled by one operation being one step, and its destructor is left out.
- The unsynchronised find in unlock: one atomic lookup; clients unlock only what they hold; size() of the lock table.
- Run: k-means returns the points grouped by cluster, which only rearranges the result; the seeding and the loop are proved separately.
- The in-place operators of a point: they are functions on values here, since no two references to one point meet.
- The single-thread seeding is the same loop as KmeansPP.Seed and is not repeated.
- lloyd, gen_xy and print_eps of kmeansRosettaCode.cpp: the first divides by a count that can be zero.
- Randomness: draws are inputs, as fractions of the current sum.
- Index trackers, throws outside leaf sections, `aborting()` and missing-assertion warnings of the section tracker; the logic error of closing a section that is not open is a result of the method.
- Reporters, command line, text formatting and string conversion of the test framework, tables of michael_heap.cpp, and code that only calls the operating system.
