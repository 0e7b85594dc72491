# Codebox in Dafny

Codebox runs user scripts: a broker accepts runs, a load balancer chooses a worker and a container for
each, and the worker runs the script in a container and streams the result back. This project models the
parts of that path whose correctness depends on interleavings, on accounting, or on byte layouts, and proves
what they promise. `dafny verify dfyconfig.toml` checks everything.

| file | what it models |
|---|---|
| `LbReservation.dfy` | CPU accounting of the load balancer as a step machine: serialised reservations, free-running two-step releases, worker shutdown |
| `LbAccounting.dfy` | what that machine keeps over every run |
| `LbInterference.dfy` | what the other threads of that machine can do while one holds the server mutex |
| `LbGrab.dfy` | container selection, run as a method against that interference |
| `LbOvercommit.dfy` | when exactly 32-bit free CPU makes an alive worker refuse a container |
| `LbCompletion.dfy` | how that machine comes to rest: everything given back, every worker closed |
| `LbCatalogue.dfy` | the server's and workers' indexes of cached containers: classes whose methods refine functions on values |
| `LbHistory.dfy` | the same indexes, told from the reports of the workers alone |
| `LbRetry.dfy` | the retry loop around a worker call, under every schedule of failures |
| `RunnerPool.dfy` | a worker's container pools, cache and weighted semaphore as a step machine |
| `RunnerConservation.dfy` | the conservation of the pools of that machine |
| `RunnerSemaphore.dfy` | the semaphore of that machine: what is held, what is lost, and by which steps |
| `RunnerCleanup.dfy` | which containers of that machine `afterRun` stops |
| `RunnerEviction.dfy` | how long a cached container of that machine is kept, and when an evicted one is stopped |
| `RunnerCompletion.dfy` | how that machine comes to rest: every call ends, the pools are full |
| `RunnerExamples.dfy` | runs of that machine that reach the failures |
| `ContainerState.dfy` | the compare-and-swap lifecycle of a container |
| `RepoLocks.dfy` | the publish protocol of the file repository, with lock stealing and evictions, as a step machine |
| `RepoWaiters.dfy` | callers that find a key locked: who gets a grant, who is turned away, who deletes which lock |
| `RepoExclusion.dfy` | when exactly that protocol excludes a second upload of a key |
| `RepoDisk.dfy` | which uploads account for the directories on disk |
| `RepoCompletion.dfy` | how that protocol comes to rest: every thread returns, the disk holds what is published |
| `RepoUpload.dfy` | the chunked upload stream, sender and receiver |
| `RepoUploadErrors.dfy` | how an upload goes wrong: outcomes and deletions, for any stream |
| `NodeSocket.dfy` | reassembly of fragmented frames in the container wrapper |
| `NodeRejection.dfy` | frames that the wrapper rejects |
| `RunPacket.dfy` | the setup and run packets, writer and decoder |
| `ResultStream.dfy` | the multiplexed output of a run, writer and parser |
| `ResultMeaning.dfy` | what the parser leaves, said of the data, the limit and the error of the run |
| `ReplyChunks.dfy` | chunked replies, sender and receiver |
| `Autoscaler.dfy` | the autoscaler's decision loop |
| `Bytes.dfy`, `Sums.dfy`, `Wrappers.dfy` | byte strings and 32-bit lengths, finite sums, options |

Code that several goroutines run against the same state is a step machine: an action is one atomic operation,
one section under a mutex, or one call into a library, a run is any sequence of actions, and an action that
cannot happen changes nothing. Code that one goroutine runs by itself is a method or a class with the source's
loops and fields.

Assumed throughout: the LRU cache is a finite map whose eviction callback runs once, after the entry is gone;
`Definition.Hash` and `Index.Hash` are injective; generated keys, docker IDs and request IDs are fresh, and a
worker ID is not registered again; JSON is a codec whose parse undoes its stringify; gRPC, docker, disk, clock
and limiter outcomes are arbitrary.

Where a promise does not hold of the code as written, the exact condition under which it does is proved, next
to a run or an input that breaks it:

- `removeCache` for a container that is not cached lowers counters anyway (`LbCatalogue.RunsAgreeExactly`,
  `LbCatalogue.StrayRemovalLeavesDangling`).
- `processData` throws when a piece ends inside a frame's length (`NodeSocket.FragmentationIndependence`).
- An exit code outside 0..127 is written as a multi-byte character, and the parser then rejects the whole
  output (`ResultStream.WideCode`); the content of a response that fails validation is parsed as more frames
  (`ResultStream.RejectedResponse`); a declared length of 2^32-5 or more panics (`ResultStream.PanicsExactly`).
- An upload that is broken off before its `Store` made the directory can leave that directory behind for good
  (`RepoDisk.CarelessAbortLeaks`, reached in `RepoDisk.CarelessAbortHappens`).
- An upload whose `Store` fails two or more chunks before the end of its file, as it does on a full disk, blocks on
  the chunk channel for ever and keeps its lock (`RepoUpload.UploadRoundTrip`); a second Meta in one stream leaves the
  lock of the first behind (`RepoUpload.UnlockedOnce`) and saves the directory of the second while the file is in that
  of the first (`RepoUploadErrors.SecondMeta`).
- When `Acquire` fails on an idle cached container that still accepts connections, the release gives back weight that
  was never acquired: whenever it can fail so, the law of the semaphore breaks, and it holds in all other runs
  (`RunnerSemaphore.SemaphoreLaw`, `RunnerSemaphore.CachedFailureThenRelease`).
- Weight that was acquired is not given back for two reasons, and for no other: the missing-resource path, and a failed
  `ContainerUpdate` on a cached container that stopped accepting in the meantime, which `getContainer` skips
  (`RunnerSemaphore.WeightComesBack`, `RunnerSemaphore.LostWeightStays`, reached in `RunnerExamples`).
- `afterRun` can stop a container that lies in the pool; only a failed `Acquire` on a fresh container leads there
  (`RunnerCleanup.PooledNeverStopped`, `RunnerCleanup.FreshFailureStopsPooled`).
- Free CPU is a 32-bit number, so containers of huge mCPU make it wrap. Then a worker that is alive can refuse a
  container that it had room for; that this cannot happen is equivalent to no alive worker being overcommitted by more
  than 2^31 milli-CPUs (`LbOvercommit.SolventExactly`, `LbOvercommit.RefusedByLiveWorker`), and a refused fresh
  container is tried again (`LbGrab.GrabWorkerContainer`). The gauge is exact if and only if as many refunds as
  reservations wrapped (`LbAccounting.GaugeExactly`, `LbOvercommit.GaugeOffThenExact`).
- The store lock excludes as long as no timed-out waiter and no eviction callback deletes the lock of an upload that is
  still active, and whenever one can, a second upload gets in (`RepoExclusion.ExclusionExactly`, reached in
  `RepoExclusion.TimeoutHappens` and `RepoExclusion.LateCallbackHappens`).
- When all retries fail cleanly the call blocks on a nil channel and keeps its reservations
  (`LbRetry.ProcessRun`).
- `StopAcceptingConnections` fails when `SendSetup` overtakes it (`ContainerState.StopFailsExactly`).
- The autoscaler's "consecutive" counters survive skipped ticks, ticks of the other kind and updates
  (`Autoscaler.StateExact`, `Autoscaler.SkippedLeavesNoTrace`), and a negative gauge scales down
  (`Autoscaler.NegativeGauge`).

## Model

| member | source | states |
|---|---|---|
| LbAccounting.CpuConservation | app/lb/worker.go:112-150 | in every reachable state, for each alive worker, free CPU plus the mCPU of containers with a settled connection plus refunds in flight is the worker's mCPU: modulo 2^32 always, exactly while the charges fit in 32 bits |
| LbAccounting.GaugeModulo | app/lb/worker.go:119-149 | in every reachable state the gauge is congruent to the free CPU of alive workers plus the debits not yet posted |
| LbAccounting.DriftExactly | app/lb/worker.go:82-149 | across register, reserve, release and shutdown in any order the gauge exceeds that sum by 2^32 for each refund that wrapped, less 2^32 for each reservation that did |
| LbAccounting.GaugeExactly | app/lb/worker.go:82-149 | so in every run it is exact if and only if as many refunds as reservations wrapped |
| LbAccounting.GaugeConservation | app/lb/worker.go:82-149 | in particular in runs where no free CPU leaves the 32-bit range |
| LbAccounting.AsyncBound | app/lb/worker.go:427-445 | a container with async > 1 never has more connections than async, and the overshoot branch of Reserve is never taken from the selection loop |
| LbAccounting.DrainedBeforeClose | app/lb/worker.go:286-312 | the wait counter is the number of outstanding reservations; the goroutine closes the connection of a dead worker if and only if none is outstanding, and once it is closed none is outstanding, then or later |
| LbAccounting.DeadStaysAsItWas | app/lb/worker.go:136-150 | once a worker is shut down its free CPU never changes again, whatever is still given back |
| LbAccounting.OvershootUndone | app/lb/worker.go:427-445 | in any state, Reserve refuses a shared container if and only if it has more connections than its limit, and then takes back its own and nothing else |
| LbCompletion.AtRest | app/lb/worker.go:112-150 | whenever no reservation is left, the mutex is free, no container has a connection, no worker waits for any, and every live worker has all its CPU |
| LbCompletion.EverythingCloses | app/lb/worker.go:286-312 | after any run every reservation can be given back and every worker be deregistered, shut down and closed, with no new reservation; the gauge is then 0, plus 2^32 for each refund that wrapped and less 2^32 for each reservation that did |
| LbReservation.BalanceStep | app/lb/worker.go:112-150 | every step changes the charges and refunds of an alive worker by exactly what it takes from free CPU or returns to it |
| LbReservation.ChargeStep | app/lb/worker.go:112-132 | which steps charge a container and which uncharge it, whatever the other threads are doing |
| LbReservation.RunInv | app/lb/worker.go:427-452 | the invariant behind all of these holds after any sequence of steps |
| LbInterference.FreeCpuFallsExactly | app/lb/worker.go:136-150 | while a thread holds the server mutex, a step of another thread lowers an alive worker's free CPU if and only if it is a refund that wraps around |
| LbInterference.MeanwhileRun | app/lb/worker.go:120-150 | whatever the others run meanwhile: containers and workers stay, free CPU rises unless a refund wraps, and refunds that wrap are no more than the reservations that were out; none if no worker is overcommitted by more than 2^31 |
| LbOvercommit.WrapRefuses | app/lb/worker.go:112-150 | a refund that wraps between test and Worker.reserve makes an alive worker refuse the first connection |
| LbOvercommit.RefusalExactly | app/lb/worker.go:112-150 | whatever runs in between, it refuses if and only if free CPU plus what was given back, wrapped to 32 bits, is below the container's mCPU |
| LbOvercommit.RefusalNeedsWrap | app/lb/worker.go:112-132 | in particular only if a refund to that worker wrapped |
| LbOvercommit.OvercommittedRefuses | app/lb/worker.go:112-150 | from any state with an alive worker overcommitted by more than 2^31 some drops and refunds lead to a refusal, for any size that fits into 2^31 together with each container of the worker |
| LbOvercommit.SolventExactly | app/lb/worker.go:112-150 | a fresh container of some size can be refused by an alive worker, after some reservations were given back, if and only if some alive worker is overcommitted by more than 2^31 |
| LbOvercommit.RefusedByLiveWorker | app/lb/worker.go:121-149 | a run from the start in which that happens |
| LbOvercommit.GaugeOffThenExact | app/lb/worker.go:112-149 | in that run the gauge is 2^32 too low, and exact again after the refund |
| LbGrab.SelectCached | app/lb/server.go:454-470 | with other threads running between any two reads: a container is chosen if and only if one was a candidate as it was read; without async it is the first of those with most free CPU, with async the last, and it still has room |
| LbGrab.FindWorkerWithMaxFreeCPU | app/lb/server.go:118-141 | of the workers registered when they were read, the one read with most free CPU, ties broken by free memory; none only if every worker has left |
| LbGrab.Reserve | app/lb/worker.go:427-445 | under the server mutex, whatever other threads do between its steps: Reserve gives up if and only if the worker is dead, or on the first connection free CPU was enough when tested and too little in Worker.reserve, which takes a refund that wraps |
| LbGrab.Attempt | app/lb/server.go:451-491 | one pass, for any interference: a cached container is tried if and only if one was a candidate as it was read, and then the best; else the container kept from a pass that failed; else a fresh one on a worker that no worker read in the scan beats. It fails only on a container of a dead worker or after a refund that wrapped; a fresh container that was refused is kept |
| LbGrab.QuietPass | app/lb/server.go:454-470 | a pass that nobody disturbs takes a cached container if and only if one is usable in the state it begins in, and without async one whose worker has most free CPU |
| LbGrab.QuietFresh | app/lb/server.go:473-480 | otherwise a fresh one on a registered worker that no other registered worker beats in free CPU, then free memory |
| LbGrab.GrabWorkerContainer | app/lb/server.go:435-496 | for any interference and any iteration order in each pass: the answer is that of a chain of passes, each of which chose as Attempt says, with exactly the containers lost before it blacklisted; tries are at most one more than cached containers and refunds that wrapped, those at most the reservations out at the start, and none without overcommitment beyond 2^31; what is returned is reserved on an alive worker; nothing is returned only when every worker of the start has left; a container is given up only for a dead worker or after a wrap |
| LbCatalogue.AddKeepsAgreement | app/lb/server.go:304-326 | addCache keeps counters and cached containers in agreement if and only if the container was not cached for the definition |
| LbCatalogue.RemoveKeepsAgreement | app/lb/server.go:328-371 | removeCache keeps agreement if and only if the container is cached by that worker, or is not cached and the worker has nothing under the index |
| LbCatalogue.EvictForgets | app/lb/server.go:604-642 | eviction leaves no reference to the worker if and only if the worker's own index named all of them |
| LbCatalogue.EvictKeepsAgreement | app/lb/server.go:604-642 | from agreement, eviction forgets the worker, keeps agreement, and leaves every other worker's containers alone |
| LbCatalogue.AlwaysHealthy | app/lb/server.go:304-371 | over all runs: no inner map is empty, every count is at least 1, and scripts and scriptsRefCounter have the same keys |
| LbCatalogue.RunsAgreeExactly | app/lb/server.go:304-371 | over every run of registrations, adds, removals and evictions: every counter equals the number of cached containers it counts throughout if and only if each add is of an uncached container by a live worker and each removal is of a container cached by that worker, or of nothing by a worker that has nothing under the index |
| LbCatalogue.TruthfulRunsAgree | app/lb/server.go:304-371 | in particular over runs whose adds name uncached and whose removals name cached containers |
| LbHistory.CachedExactly | app/lb/server.go:304-371 | while the counters agree, a container is cached for a definition if and only if it was the last added under its id and neither removed since nor its worker evicted |
| LbHistory.ListedExactly | app/lb/worker.go:247-283 | in every run, a worker lists a container if and only if it was the last added by that worker under its id, for whatever definition, and not removed since |
| LbCatalogue.StrayRemovalLeavesDangling | app/lb/server.go:509-530 | for any cached container, one removal that names any other makes a later eviction leave the container in the server's map |
| LbCatalogue.Worker.AddCache | app/lb/worker.go:247-257 | refines adding to the worker's index |
| LbCatalogue.Worker.RemoveCache | app/lb/worker.go:260-283 | refines removing from the worker's index and tells whether the definition went with it |
| LbCatalogue.Worker.Shutdown | app/lb/worker.go:286-312 | returns the definitions of scripts, each once, and marks the worker dead |
| LbCatalogue.Server.AddCache | app/lb/server.go:304-326 | refines addCache on the two server maps and the worker's index |
| LbCatalogue.Server.RemoveCache | app/lb/server.go:328-371 | refines removeCache; the result tells whether a container or an index entry went |
| LbCatalogue.Server.OnEvictedWorker | app/lb/server.go:604-642 | the loops over the dead worker's definitions amount to one eviction |
| LbCatalogue.Server.RegisterWorker | app/lb/server.go:533-547 | creates a worker, alive and with an empty index, and enters it under its ID |
| LbCatalogue.Server.Disconnect | app/lb/server.go:561-570 | removing the worker runs the eviction exactly once |
| LbRetry.ChunkReader.Get | app/common/chunk_reader.go:14-17 | chunks come in order and the first call marks the reader dirty |
| LbRetry.RunOn | app/lb/worker.go:355-403 | a worker receives the chunks before the first Send that fails, all of them exactly when the call succeeds; the reader stays clean exactly when the failure came before the first read |
| LbRetry.ProcessWorkerRun | app/lb/server.go:418-431 | a container that is not from the cache first gets source and environment, each unless it has it already; the run starts only if both are there |
| LbRetry.RunDeferred | app/lb/server.go:246-260 | deferred releases and unlocks all run, last first |
| LbRetry.UploadResource | app/lb/server.go:401-416 | succeeds if and only if the worker then has the resource |
| LbRetry.ProcessRun | app/lb/server.go:232-287 | under every failure schedule, with the number of attempts made: the containers reserved, those run on and the limiter locks granted are exactly those of these attempts; nothing is reserved when the source is missing; input reaches at most one worker, the last one tried, up to the first Send that fails; success means the whole stream was sent there; on return every reservation is released once and every lock unlocked once; the call blocks if and only if every attempt it may make fails without touching the input |
| LbRetry.AttemptSays | app/lb/server.go:237-287 | which attempts are retried, and which end the call with which outcome, from the failures alone: a failed lock on the first connection of a limited run, and only that, gives ResourceExhausted |
| RunnerConservation.PoolConservation | app/script/runner.go:454-501 | on every path, errors included, pool length plus jobs that owe a container is what CreatePool put in; no container is in a pool twice or while a job has it |
| RunnerConservation.PutNeverBlocks | app/script/runner.go:597-615 | every send that gives a container back finds room in the channel |
| RunnerSemaphore.SemaphoreLaw | app/script/runner.go:688-748 | unless Acquire fails on a cached container that still accepts, the weight held is the sum of what containers with connections acquired, and is within the concurrency; release weights match acquired ones |
| RunnerSemaphore.CachedFailureThenRelease | app/script/runner.go:761-778 | conversely, whenever Acquire can fail so with a positive weight, a release follows that breaks the law |
| RunnerSemaphore.CachedFailureOverReleases | app/script/runner.go:719-723 | in every later run without another such failure the semaphore is either exact or short by that weight, and it is short whenever the container is idle |
| RunnerSemaphore.QuotaBound | app/script/runner.go:188-194 | both divisions round down: concurrency times CPUQuota is at most (MCPU - reserved) * 100 |
| RunnerSemaphore.QuotaExactly | app/script/runner.go:188-194 | the CPU limit is the largest share that all containers can have, the quota the largest within the limit |
| RunnerPool.TruncDivExactly | app/script/runner.go:188-194 | the quotient of Go's integer division, for dividends of either sign |
| RunnerSemaphore.QuotaWithinBudget | app/script/runner.go:750-755 | so the quotas of all containers in use stay within the worker's budget in every run under that condition |
| RunnerSemaphore.WeightCovers | app/script/runner.go:409-411 | the weight is the least whose share of the CPU limit covers the definition's MCPU |
| RunnerSemaphore.DefaultWeight | app/script/runner.go:405-411 | a definition that names no MCPU weighs one share, or nothing if a share is less than one milli-CPU |
| RunnerSemaphore.QuietWeight | app/script/runner.go:719-748 | when no job is running, the weight held is what containers with lost connections acquired, so it is 0 if and only if there is no such container |
| RunnerSemaphore.LostExactly | app/script/runner.go:454-501 | a connection is lost if and only if the run took the missing-resource path or skipped a cached container after a failed update |
| RunnerSemaphore.WeightLostExactly | app/script/runner.go:699-711 | a container keeps weight for a lost connection if and only if such a step happened on a container that had acquired weight |
| RunnerSemaphore.WeightComesBack | app/script/runner.go:719-748 | when no job is running, all weight is back if and only if no step of the run lost weight |
| RunnerSemaphore.LostForever | app/script/runner.go:460-466 | a lost connection stays in its container in every continuation, with the weight acquired for it |
| RunnerSemaphore.LostWeightStays | app/script/runner.go:761-769 | on both paths the container's weight is held in every continuation |
| RunnerSemaphore.MissingResourceLeaks | app/script/runner.go:460-466 | on the missing-resource path, moreover, a later job without async that takes the container is refused |
| RunnerExamples.MissingResourceHappens | app/script/runner.go:460-466 | a run that reaches the first leak |
| RunnerExamples.UpdateFailureHappens | app/script/runner.go:766-769 | a run that reaches the second |
| RunnerExamples.AcquireFailureHappens | app/script/runner.go:692-694 | a run after which Acquire can fail on a cached container |
| RunnerCleanup.PooledNeverStopped | app/script/runner.go:503-509 | in runs where Acquire never fails on a fresh container, no container in a pool was stopped |
| RunnerCleanup.FreshFailureStopsPooled | app/script/runner.go:467-473 | whenever it does fail so, the container can be put back into the pool and then stopped there |
| RunnerEviction.WarmUntilEvicted | app/script/runner.go:505-509 | whatever calls use it and end, a cached container accepts connections and is not stopped, until the eviction callback runs on it and no longer |
| RunnerEviction.EvictedIsStopped | app/script/runner.go:1074-1083 | whenever a container is evicted, and whatever runs then: when all calls are over it has been stopped, unless a connection of it was lost |
| RunnerEviction.AllOver | app/script/runner.go:503-509 | from every such run all calls can be over, afterRun included |
| RunnerCompletion.CachedUse | app/script/runner.go:688-748 | a call that gets a connection of a cached container, runs and releases it leaves the container's connections and the weight held as they were |
| RunnerCompletion.EveryCallEnds | app/script/runner.go:454-501 | after any run under the condition of the semaphore's law every call of Run can end, by steps of the calls under way alone; then every pool holds what CreatePool put in, and the semaphore is free if and only if no weight had been lost |
| RunnerExamples.FreshFailureHappens | app/script/runner.go:467-473 | a run that reaches this |
| ContainerState.PhaseForward | app/script/container.go:296-306 | the state never goes back, under any interleaving |
| ContainerState.NeverAcceptsAgain | app/script/container.go:296-306 | a container that left Running never accepts connections again |
| ContainerState.AloneExactly | app/script/container.go:302-372 | undisturbed, SendSetup makes exactly a fresh container accept; StopAcceptingConnections and Stop leave none accepting, and Stop stops it, and returns true if and only if nobody had stopped it |
| ContainerState.StopSucceedsOnce | app/script/container.go:354-372 | at most one Stop returns true, and one has exactly when the container is stopped |
| ContainerState.StopFailsExactly | app/script/container.go:302-306 | StopAcceptingConnections leaves the container accepting if and only if its first swap found it fresh and, of the swaps before its second, a SendSetup is the first to find it fresh and no first swap of another stop follows |
| ContainerState.AcceptsExactly | app/script/container.go:296-306 | which swaps in which order leave a fresh container accepting connections |
| ContainerState.StopCanBeOvertaken | app/script/container.go:225-227 | an overlapping SendSetup does that |
| RepoLocks.PublicationSafety | app/filerepo/repo.go:175-185 | what is published under a key is one finished upload for that key, written by nobody any more, still on disk if anything was stored, and published under no other key |
| RepoLocks.NeverReplaced | app/filerepo/repo.go:178-182 | over every continuation a published directory stays the published one until it is evicted, and a discarded or evicted one is never published again |
| RepoLocks.ChannelLaw | app/filerepo/repo.go:134-164 | a lock channel has one owner, is closed at most once, and is open exactly while its owner has not finished StoreUnlock |
| RepoWaiters.WaiterFate | app/filerepo/repo.go:150-164 | over every run a caller that waits for a key stays in StoreLock or returns nil, unless it timed out or did not find the key when it looked after being woken |
| RepoWaiters.WaiterGranted | app/filerepo/repo.go:150-164 | so whoever waited and got a grant did one of these |
| RepoWaiters.WokenExactly | app/filerepo/repo.go:152-156 | whatever the others do before it looks, a woken caller returns nil if and only if the key is published when it looks, and changes nothing else |
| RepoWaiters.PublishedRejects | app/filerepo/repo.go:134-156 | StoreLock on a published key whose lock is closed returns nil and leaves the state as it was |
| RepoWaiters.LockGoesExactly | app/filerepo/repo.go:161-182 | a step deletes a lock if and only if it is the discard of its own upload, a caller giving up on that very channel, or an eviction of its key; no step replaces one |
| RepoCompletion.DiscardedUnlocks | app/filerepo/repo.go:178-185 | once a discarded upload closes its channel no key is locked by it, then or in any continuation |
| RepoCompletion.EverythingEnds | app/filerepo/repo.go:134-185 | after any run every thread can return and every Store and eviction end, by the steps under way alone: nobody has to time out |
| RepoCompletion.QuietRepository | app/filerepo/repo.go:134-185 | when all has ended, every channel was closed once, a lock still listed is that of an upload that was published, and, if no upload was broken off too early, the directories on disk are exactly the published ones |
| RepoCompletion.DiskComesToCache | app/filerepo/repo.go:175-239 | after any such run the disk can come to hold exactly what is published |
| RepoExclusion.MutualExclusion | app/filerepo/repo.go:134-164 | with any number of timeouts and evictions, at most one upload at a time is active for a key as long as no step deletes the lock of an active one |
| RepoExclusion.StealSplits | app/filerepo/repo.go:157-172 | whenever a step can delete such a lock, two uploads are active on the key after it and one more arrival |
| RepoExclusion.StealLetsIn | app/filerepo/repo.go:157-172 | the next thread in StoreLock for the key gets in, be it the waiter that timed out |
| RepoExclusion.ExclusionExactly | app/filerepo/repo.go:134-172 | every state of a run stays exclusive until a lock is stolen if and only if no step of the run steals one |
| RepoExclusion.TimeoutHappens | app/filerepo/repo.go:157-163 | a run after which a timed-out waiter can steal |
| RepoExclusion.LateCallbackHappens | app/filerepo/repo.go:469-472 | a run after which a late eviction callback can |
| RepoDisk.DiskIsAccounted | app/filerepo/repo.go:175-239 | if no upload is broken off while its Store has yet to make the directory, the directories on disk are exactly those of uploads in progress, published ones, and ones being removed |
| RepoDisk.CarelessAbortLeaks | app/filerepo/server.go:54-62 | whenever one is, there is a run after which the directory stays on disk in every continuation |
| RepoDisk.CarelessAbortHappens | app/filerepo/server.go:54-62 | a run in which an upload is about to be broken off so |
| RepoDisk.OrphanForever | app/filerepo/repo.go:175-182 | nothing removes the directory of a discarded upload whose owner has finished |
| RepoLocks.RunInv | app/filerepo/repo.go:134-185 | the invariant behind publication, channels and the directories on disk holds after any sequence of steps |
| RepoUpload.UploadClient.SendFile | app/lb/worker.go:207-228 | the chunks sent for a file are non-empty, at most chunkSize, carry its name, and concatenate to its data, or to a part of it when a Send fails |
| RepoUpload.UploadClient.Upload | app/broker/server.go:401-469 | whichever Send, Recv or download fails: what was sent is Meta, the chunks of every file before the failure in order, a part of the next; Done follows all files or is not sent; a rejected upload sends only Meta |
| RepoUpload.Server.ProcessChunkUpload | app/filerepo/server.go:126-155 | refines the treatment of one chunk: a new name closes the running Store and starts another; a chunk more than a failed Store left room for blocks |
| RepoUpload.Server.Handle | app/filerepo/server.go:74-120 | refines one turn of the receive loop |
| RepoUpload.Server.Upload | app/filerepo/server.go:39-124 | the loop and the deferred cleanup refine the session function |
| RepoUpload.UnlockedOnce | app/filerepo/server.go:54-62 | for any stream, broken anywhere: at most one unlock, of the last lock granted, with save exactly when Upload succeeds on a stream that contains Done; no granted lock is left if and only if at most one Meta was received; a blocked Upload unlocks nothing |
| RepoUpload.UploadRoundTrip | app/filerepo/server.go:64-155 | for any files with distinct names, cut into chunks in any way, and any Store errors: saved if and only if every Store succeeds, and then exactly the non-empty files are there with their exact contents; blocked for ever if and only if the first Store to fail leaves two or more chunks of its file untaken; otherwise discarded |
| RepoUpload.RepliesExactly | app/filerepo/server.go:74-117 | for any stream: accepted once for every lock granted, and an empty answer at the end if and only if a lock was refused or the upload was saved |
| RepoUpload.RefusedUpload | app/filerepo/server.go:79-82 | an upload whose lock is refused gets the empty answer, stores nothing and unlocks nothing, whatever follows |
| RepoUploadErrors.OutcomeExactly | app/filerepo/server.go:64-120 | for any stream: the missing Meta is reported if and only if something else comes first, a broken stream if and only if it breaks while Upload still reads |
| RepoUploadErrors.FailedStoreDeletes | app/filerepo/server.go:142-149 | for any stream: one key that was received is deleted, once, if and only if a Store that was started fails, and that is the last one started |
| RepoUploadErrors.SecondMeta | app/filerepo/server.go:75-117 | after a second Meta while a Store runs, the file lies in the directory of the first lock, and a failure deletes the first key, while the lock of the second is unlocked and saved |
| RepoUpload.StoredExactly | app/filerepo/server.go:126-155 | a file is stored if and only if it is not empty |
| RepoUpload.BrokenUploadDiscarded | app/filerepo/server.go:54-72 | an upload whose stream ends before Done is discarded, unless it blocks |
| NodeSocket.FragmentationIndependence | assets/wrappers/node.js:384-466 | for any list of frames and any cutting of their bytes, the list is delivered unchanged and in order if and only if no cut falls inside a length; otherwise processData throws after delivering a prefix |
| NodeSocket.BrokenStream | assets/wrappers/node.js:384-404 | when the stream breaks off anywhere, exactly the frames that arrived in full are delivered |
| NodeRejection.RejectedFrame | assets/wrappers/node.js:401-466 | a frame that the handler throws on, in any pieces that cut no length: exactly the frames before it are delivered, its buffer stays, and the rest of the piece is dropped |
| NodeRejection.ShortLength | assets/wrappers/node.js:393-408 | a length below 4 is rejected as soon as it is read |
| NodeRejection.StuckForever | assets/wrappers/node.js:398-404 | after either nothing is delivered any more, and every further piece throws |
| NodeSocket.FeedFrom | assets/wrappers/node.js:384-466 | both from any intermediate state of the socket |
| NodeSocket.FeedOne | assets/wrappers/node.js:384-404 | what one piece of the stream delivers and leaves pending |
| NodeSocket.Socket.ProcessData | assets/wrappers/node.js:384-466 | the recursive function on the socket's buffer and offset terminates and refines the feeding of a piece |
| RunPacket.Conn.SetupSocket | app/script/container.go:147-166 | writes the setup packet, or an error and the prefix that went through |
| RunPacket.DescribeFiles | app/script/container.go:237-251 | the file descriptions, and the total size of what will be written for them |
| RunPacket.Conn.Run | app/script/container.go:235-294 | writes the run packet: two lengths, the context, the files in the order described; or an error and the prefix that went through, wherever a write fails |
| RunPacket.CutFiles | assets/wrappers/node.js:438-451 | the cursor loop computes the buffers at their offsets |
| RunPacket.HandleRun | assets/wrappers/node.js:433-452 | refines the decoding of a run packet, exceptions included |
| RunPacket.AnnouncedLength | app/script/container.go:271-274 | the announced length is the number of bytes written if and only if that number fits in 32 bits |
| RunPacket.CursorRecovers | assets/wrappers/node.js:440-451 | cutting by cursor recovers each file's exact bytes, name and type, in any iteration order |
| RunPacket.LastNameWins | assets/wrappers/node.js:444-451 | for any descriptions, repeated names included: a name has the last of its files, cut out behind all files before it, and no other name has any |
| RunPacket.RunRoundTrip | assets/wrappers/node.js:433-452 | the wrapper decodes the context that was sent and exactly the files that were sent |
| RunPacket.SetupRoundTrip | assets/wrappers/node.js:407-411 | the wrapper decodes the setup that was sent |
| RunPacket.ConnectionRoundTrip | app/script/container.go:216-294 | setup and first run on one connection, in any fragmentation that cuts no length, arrive and decode to what was sent; when the connection breaks inside the run packet nothing runs |
| ResultStream.Result.ParseData | app/script/result.go:91-137 | refines one parsing step, the 32-bit addition included |
| ResultStream.Result.Parse | app/script/result.go:49-89 | exit code, loop and trimming refine the parser function on the fields |
| ResultStream.Bounded | app/script/result.go:64-89 | for every input: stdout is within the limit, the total is or stderr is the limit text with code 1, an error means code 1, a response means no error |
| ResultStream.AcceptsExactly | app/script/result.go:70-137 | Parse returns nil on exactly the inputs that spell a well-formed message, and the result is that message's meaning |
| ResultStream.PanicsExactly | app/script/result.go:98-105 | Parse panics on exactly the inputs in which a frame that is reached declares 2^32-5 bytes or more |
| ResultMeaning.ParseSays | app/script/result.go:49-89 | for well-formed data: within the limit the last stdout frame, the last stderr frame or text, and code 124 for a timeout, 1 for another error of the run, the first byte without one, 1 after a response that failed validation; above it the longest prefix of stdout within the limit, the limit text and code 1 |
| ResultMeaning.NothingWritten | app/script/result.go:50-62 | a run that wrote nothing: 124 after a timeout and 1 otherwise |
| ResultMeaning.MalformedSays | app/script/result.go:64-89 | for malformed data: code 1, no response, the stdout frame before the place that does not parse is kept, and the error text replaces stderr, or the limit text above the limit |
| ResultStream.ParseMessage | app/script/result.go:91-137 | a message parses to what its frames say, the last of each stream winning and a response taking all trailing bytes |
| ResultStream.ConnectionContext.SendData | assets/wrappers/node.js:304-311 | writes one frame, or throws when the length does not fit |
| ResultStream.ConnectionContext.SendResponse | assets/wrappers/node.js:134-170 | writes nothing for an intermediate call without async; otherwise exit code, non-empty streams, response, and ends the socket |
| ResultStream.RoundTrip | assets/wrappers/node.js:134-170 | for ASCII exit codes, any streams and any valid response, Parse returns what was sent, cut to the limit |
| ResultStream.RejectedResponse | app/script/result.go:122-127 | after a response that fails validation its content is parsed as further frames |
| ResultStream.WideCode | assets/wrappers/node.js:139-146 | with any other exit code Parse rejects the whole output, whatever the streams |
| ResultStream.ExitCodeSurvives | app/script/result.go:52-53 | an exit code is recovered if and only if it is one of 0..127 |
| ResultMeaning.CodeArrives | assets/wrappers/node.js:139-146 | a code set on the connection arrives, whatever process.exitCode is; without one process.exitCode does, and 0 without either |
| ResultMeaning.CodeIsSpelled | assets/wrappers/node.js:146 | any code is sent as the shortest UTF-8 of one 16-bit unit, U+FFFD for half of a surrogate pair |
| ReplyChunks.SendResponse | app/script/server.go:160-219 | one message with the summary, then continuations, all full but the last, no content above chunkSize, concatenating to the content |
| ReplyChunks.ProcessResponse | app/broker/server.go:553-571 | the messages received are folded onto the first; a missing response is dereferenced exactly when there is more than one message and one lacks it |
| ReplyChunks.RoundTrip | app/broker/server.go:553-571 | the broker ends with the summary and response the worker had, of whatever size |
| ReplyChunks.BrokenReply | app/broker/server.go:559-571 | a stream that breaks early leaves a prefix of the content |
| ReplyChunks.MessageCount | app/script/server.go:199-210 | no more messages than the content needs |
| Autoscaler.Autoscaler.OnTick | cmd/autoscaler/autoscaler.go:193-248 | refines one tick of the loop |
| Autoscaler.StateExact | cmd/autoscaler/autoscaler.go:185-248 | after any ticks each counter is the number of counted ticks of its kind since the last reset, capped; lastUpdate is the time of the last update |
| Autoscaler.UpdatesExactly | cmd/autoscaler/autoscaler.go:211-237 | a tick updates if and only if it is of a kind that counts and enough ticks of its kind were counted since the last reset; it changes the replicas by one and stays within the scale |
| Autoscaler.KindSays | cmd/autoscaler/autoscaler.go:193-237 | a tick counts for scaling up if and only if workers, current and desired replicas are equal, the gauge is below MinFreeCPU and desired is below MaxScale; for scaling down if and only if it does not meet the first three, the gauge is above MaxFreeCPU, the cooldown is over and desired is above MinScale; it resets if and only if it is answered and meets neither test |
| Autoscaler.TickSays | cmd/autoscaler/autoscaler.go:193-248 | in every run an increase or decrease is asked for only on such a tick, and the counters return to 0 on exactly the answered ticks that meet neither test |
| Autoscaler.CooldownKept | cmd/autoscaler/autoscaler.go:223-232 | a decrease comes more than the cooldown after the update before it |
| Autoscaler.StaysInScale | cmd/autoscaler/autoscaler.go:213-248 | if nobody else scales the deployment, and updates fail or take effect late or out of order as they please, it is never asked to leave MinScale..MaxScale, and every update is one off what its tick saw |
| Autoscaler.NegativeGauge | cmd/autoscaler/autoscaler.go:193-237 | while the gauge is negative and each tick comes after the cooldown, replicas fall by one a tick after the first downscaleConsecutive ticks, down to MinScale |
| Autoscaler.SkippedLeavesNoTrace | cmd/autoscaler/autoscaler.go:194-206 | skipped ticks and ticks at a limit can be removed from any run without changing its outcome |
| Autoscaler.NoWaitAfterUpdate | cmd/autoscaler/autoscaler.go:211-237 | once a tick updated, every later tick of its kind updates, until a tick resets the counters |

## Left out

- LbReservation: mCPU values of 2^31 and more, which int32 turns negative, and the wrap-around of the unsigned 32-bit connection counter below zero.
- LbGrab.GrabWorkerContainer: workers that register during the call, which it may or may not see.
- LbCatalogue: the same worker ID registered twice.
- LbCatalogue.Worker.Shutdown: the gauge and the goroutine that closes the connection are part of LbReservation instead.
- RepoLocks: the permanent store, volumes, `Flush` and `CleanupUnused`; the empty parent directory of a key, which nothing removes; readers that hold a path while it is evicted.
- RepoDisk.DiskIsAccounted: directories are all or nothing; what `RemoveAll` and a concurrent `Create` do inside one directory is not modelled.
- NodeSocket.Socket.ProcessData: allocation failures for very large declared lengths, and what running a script does to the socket.
- RepoUpload: a file that keeps returning a read error, on which the sender loops; the order of `Repo.Delete` after a failed Store among the other calls.
- RepoUpload.Server.Upload: files that Stores finish after Upload stopped waiting for them; RepoDisk covers what becomes of their directory.
- RunnerEviction: a stop that an overlapping SendSetup undoes, which ContainerState covers.
- RunnerPool: `StopPool`, failing container creation (which panics), the memory checks of `afterRun`, the script index, and the lock that keeps two fresh containers of one asynchronous definition apart.
- RunnerSemaphore.QuotaBound: only for a positive CPU limit, without which a weight is not defined, and for fewer than 2^26 milli-CPUs, so that the 64-bit products are exact.
- RunnerSemaphore.CachedFailureOverReleases: Go's `Weighted.Release` panics instead of going below zero; the model lets the number go negative.
- LbRetry: the limiter itself, the error counter of a worker, and relaying responses after the call was accepted.
- ResultStream: a negative stream limit; `validate` and JSON beyond their results; the fields of Result that Parse does not touch.
- ReplyChunks: send errors of the broker's caller and the trace that is stored.
- Autoscaler: the HTTP calls; an update that fails still counts as one, as in the source.
- `uploadFiles` of the broker: waiting for a concurrent upload of the same key.
- `Server.Delete` of the load balancer, `app/script/user_cache.go`, and the cache client in the wrapper.
- gRPC, yamux, docker, redis, AMQP, HTTP and uwsgi handling, logging, tracing and command lines: outcomes are arbitrary or not modelled.
