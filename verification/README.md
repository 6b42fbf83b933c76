# agentfab: verified core

A Dafny model of the parts of agentfab whose correctness is hard to see from the code: the control plane's
leases and membership, the scheduler's concurrency, the file-block format and the tool loop around it, the
rotation of the development CA, and the renaming of tasks when a graph is restructured.

`dafny verify dfyconfig.toml` checks everything.

| files | what they are about |
|---|---|
| Leases, LeaseExclusion, LeasePruning | one lease key under both layouts: epoch fencing, timed mutual exclusion, deletion on read |
| Liveness, StoreSpec | nodes and instances that decay, and the store as one atomic step per operation |
| LeaseSafety | what the leases of a store guarantee over whole runs |
| LeaseReplies, MemberReplies | what a store answers, read off the calls and answers before |
| TaskHealth | the scheduler's check of a running task |
| MemoryStore, FileStore, EtcdStore | the three stores; the file store and the etcd leases answer as the in-process store does |
| Dispatch | the dispatch loop, its goroutines and its channel of completions |
| Demux | the message demultiplexer and the wait for a result |
| Placement, Selection, DirPrefix | load counters and the overshoot of a node's limit, the two choices of an instance, a path function |
| Text, Paths, FileBlocks, RoundTrip | reading and printing file blocks |
| Pipeline, FinalResponse, StripMerge, Prose | how the blocks of a tool loop and the text around them are put into its final response |
| ToolLoop, LoopArtifacts | the loop itself, and what becomes of the files it has written |
| Decimal, CompactHistory, TruncateDeps | two truncations to a budget |
| CARotation | rotation, retirement and pruning of root certificates |
| Restructure | fresh IDs and dependency renaming |

Code that updates fields in place is modelled by classes and loops proved against functions; the properties
are then lemmas about those functions and about runs of them. Goroutines are interleaved steps. A clock
reading is an argument: the lease operations go by one taken before the lock, membership by one taken under it.
Readings before the lock may be in any order; a lemma that needs them in order says so, and so does one that
needs the clock itself not to go back.

Things the proofs turned up:

- Timed mutual exclusion holds whenever anyone may ask for a key exactly if the holder never asks, while its entry
  lasts, for less than the stored expiry. A shorter TTL breaks it, and so does one TTL with a renewal that reads the
  clock before a later one and gets the lock after it (`LeaseExclusion.ExclusionExactlyUnlessShortened`,
  `LeaseExclusion.OneTTLShortensExactlyLate`, `LeaseExclusion.ShorterRenewalBreaksExclusion`,
  `LeaseExclusion.LateRenewalBreaksExclusion`).
- The in-process store deletes an expired entry on read and the etcd store does not. That can be told exactly when an
  operation with an older reading goes by the entry after a read has found it expired
  (`LeasePruning.PruningShowsExactly`, `EtcdStore.EtcdAgreesExactly`, `LeasePruning.PruningShowsWhenClockGoesBack`).
- A path that is trimmed before it is cleaned can end in white space afterwards, and then does not survive
  printing and reading (`Paths.CleanCanUntrim`, `RoundTrip.ReadPrintRead`).
- Stripping compares with the last collected content and merging prints the first. A final response that writes
  a file twice can keep the older version, and so can one that repeats a file which was collected twice and cannot
  be read back any more (`StripMerge.StripThenMerge`, `StripMerge.RepeatedPathLosesTheLatest`,
  `StripMerge.CollectedTwiceLosesTheLatest`, `LoopArtifacts.DeletedFileComesBackOld`).
- Subscribing with more than 16 stored messages never returns and holds the demultiplexer's lock
  (`Demux.SubscribingCanBlock`).
- A dependency on a task that is listed later and renamed is not followed
  (`Restructure.RenamingIsExactlyInOrder`, `Restructure.LaterDependencyIsCaught`).
- The back-off of the dispatch loop is unreachable (`Dispatch.BackOffIsUnreachable`).
- An answer given after the last verification retry has failed is returned without another verification and
  without being marked as failed (`ToolLoop.AnswerIsTheLastOne`).
- The characters reported missing from a truncated text are too few exactly when it was cut back to a line break
  (`TruncateDeps.ReportIsRightExactly`, `TruncateDeps.ReportIsTooSmall`).

## Model

| member | source | states |
|---|---|---|
| Leases.AlwaysSound | internal/controlplane/memory.go:400-440 | In every run, at any clock readings, the counter of a lease key is not negative and the epoch of a present entry is the counter |
| Leases.TokenIsRemembered | internal/controlplane/memory.go:541-571 | A copy of a lease once handed out is still answered for under its epoch by the same holder, or the key has gone on to a higher epoch |
| Leases.CounterGrows | internal/controlplane/memory.go:426-436 | The counter of a key never goes down, through grants, renewals, releases, expiries and prunings |
| Leases.FreshEpochsIncrease | internal/controlplane/memory.go:426-436 | Two grants of one key that issue an epoch issue increasing ones, whatever lies between and whatever the clock says |
| Leases.EpochBindsHolder | internal/controlplane/memory.go:400-440 | Two copies of a lease with one epoch have one holder, one description and one time of acquisition, for ever |
| Leases.SupersededTokenIsDead | internal/controlplane/memory.go:541-616 | Once a later epoch is out, a token of an earlier one can neither renew nor release, at any time |
| Leases.FoundMeansNotSuperseded | internal/controlplane/memory.go:573-592 | A read that finds the epoch of an earlier grant proves that nothing was granted between the two |
| LeaseExclusion.StoredExpiryDominates | internal/controlplane/memory.go:63-119 | Until its holder releases, every copy ever handed out has run out or is dominated by the stored expiry of that same holder |
| LeaseExclusion.MutualExclusion | internal/controlplane/memory.go:63-119 | As long as nothing was shortened: when a key is granted, every copy ever handed out for another holder has expired at the time the lock is held, or that holder has released since |
| LeaseExclusion.ExclusionExactlyUnlessShortened | internal/controlplane/memory.go:96-119 | Exclusion holds whenever anyone may ask exactly if no effective grant or renewal by the current holder asked, while its entry lasted, for less than the stored expiry; the clock does not go back, and the readings taken before the lock may be in any order |
| LeaseExclusion.OneTTLShortensExactlyLate | internal/controlplane/memory.go:101-118 | With one TTL the holder shortens its entry exactly by an operation that takes effect, before the entry runs out, with an older reading than the one that set it |
| LeaseExclusion.FixedTTLNeverShortens | internal/controlplane/memory.go:541-571 | With one TTL and readings in order nothing is ever shortened |
| LeaseExclusion.ExclusionAtReadings | internal/controlplane/memory.go:63-119 | Then other copies have expired even at the reading the grant was decided with |
| LeaseExclusion.LateRenewalBreaksExclusion | internal/controlplane/memory.go:101-118 | One TTL is not enough if readings are out of order: a renewal that read the clock earlier and takes effect later shortens the entry, and an older copy outlives it |
| LeaseExclusion.ShorterRenewalBreaksExclusion | internal/controlplane/memory.go:96-119 | A renewal with a shorter TTL leaves an older copy valid after the key has gone to someone else |
| LeasePruning.PruningIsUnobservable | internal/controlplane/memory.go:121-135 | With readings in order every reply is the same whether reads delete expired entries or leave them |
| LeasePruning.PruningShowsExactly | internal/controlplane/memory.go:121-135 | With readings in any order all replies are the same exactly if no operation goes by an entry, as one that has not expired, that an earlier read has found expired and that has not been replaced or released since |
| LeasePruning.PruningShowsWhenClockGoesBack | internal/controlplane/memory.go:121-135 | With readings out of order deleting on read can be told: a renewal is refused that would have gone through |
| StoreSpec.LeaderIsACell | internal/controlplane/memory.go:63-149 | Whatever a store does besides, its leader lease lives the life of one lease key: all that is proved of one key holds of it |
| StoreSpec.TaskKeyIsACell | internal/controlplane/memory.go:400-440 | The same of every task lease: operations on other tasks, profiles, nodes and instances never show in it |
| StoreSpec.ProfileIsACell | internal/controlplane/memory.go:442-539 | The same of every profile lease |
| LeaseSafety.TaskExclusionUnlessShortened | internal/controlplane/memory.go:400-440 | As long as nobody shortens its lease on a task: when the task is granted to an owner, every copy handed out for another owner has expired under the lock or that owner released the task |
| LeaseSafety.LeaderExclusionUnlessShortened | internal/controlplane/memory.go:63-119 | The same of the leader lease |
| LeaseSafety.TaskMutualExclusion | internal/controlplane/memory.go:400-440 | With one TTL and readings in order, when a task is granted to an owner, every copy handed out for another owner has expired at the reading of the grant or that owner released the task |
| LeaseSafety.LeaderMutualExclusion | internal/controlplane/memory.go:63-119 | The same of the leader lease |
| LeaseSafety.TaskGrantsIncrease | internal/controlplane/memory.go:400-440 | All grants of a task have strictly increasing epochs, at arbitrary clock readings |
| LeaseSafety.LeaderGrantsIncrease | internal/controlplane/memory.go:63-94 | The same of the leader lease |
| LeaseSafety.ProfileGrantsIncrease | internal/controlplane/memory.go:442-480 | The epochs of the grants of a profile never go down, and go up when owner or instance changes |
| LeaseSafety.SupersededTaskTokenIsDead | internal/controlplane/memory.go:541-616 | Once a task has been granted again, a token from before is refused on renewal and releases nothing, at any time and clock reading |
| LeaseSafety.SupersededLeaderTokenIsDead | internal/controlplane/memory.go:96-149 | The same of the leader lease |
| LeaseSafety.SupersededProfileTokenIsDead | internal/controlplane/memory.go:482-539 | The same of a profile once a higher epoch is out |
| LeaseSafety.LeaderEpochBindsHolder | internal/controlplane/memory.go:63-94 | An epoch of the leader lease belongs to one holder and one address for ever |
| LeaseSafety.TaskGrantIsFresh | internal/controlplane/memory.go:400-440 | A grant of a task never reuses an epoch, not even for the owner that holds it |
| LeaseSafety.TaskEpochBindsOwner | internal/controlplane/memory.go:400-440 | An epoch of a task belongs to one owner, profile, instance and node for ever |
| LeaseSafety.ProfileEpochBindsOwnerAndInstance | internal/controlplane/memory.go:442-480 | An epoch of a profile belongs to one owner and one assigned instance for ever |
| TaskHealth.HealthyMeansStillOurs | internal/conductor/scheduler.go:2262-2306 | A health check that passes with a non-zero epoch and a lease lookup that worked proves that the task was granted to nobody, not even the same owner, since this dispatch |
| TaskHealth.BrokenLookupsPass | internal/conductor/scheduler.go:2290-2304 | A check whose lookups all fail passes, so the fact above needs the lookup to have worked |
| TaskHealth.VerdictExactly | internal/conductor/scheduler.go:2262-2306 | Every verdict of the check is given exactly for its own reason, read off the three lookups, that of the node before that of the instance before that of the lease; healthy exactly if there is none |
| TaskHealth.UndisturbedIsHealthy | internal/conductor/scheduler.go:2262-2306 | A task whose node and instance keep reporting and whose lease, as granted or renewed last, nobody has touched and has not run out, is healthy |
| LeaseReplies.TaskIsAnswered | internal/controlplane/memory.go:400-440 | Every answer of either store about a task lease, from the arguments, the reading and the answers given before: what is turned away, that a task is granted under the next epoch for just the time asked unless another owner holds an unexpired copy, and is then reported, found and renewed as it was handed out last |
| LeaseReplies.LeaderIsAnswered | internal/controlplane/memory.go:63-149 | The same of the leader lease |
| LeaseReplies.ProfileIsAnswered | internal/controlplane/memory.go:442-539 | The same of a profile lease, where an own unexpired lease is extended under its epoch |
| LeaseReplies.GrantedTaskIsHeld | internal/controlplane/memory.go:400-440 | Who asks for a task nobody else holds is granted it with the owner, description and times asked for; while nobody touches it and it has not run out, it is found and renewed, and another owner is told of it |
| LeaseReplies.GrantedLeaderIsHeld | internal/controlplane/memory.go:63-149 | The same of the leader lease |
| LeaseReplies.GrantedProfileIsHeld | internal/controlplane/memory.go:442-539 | The same of a profile lease |
| MemberReplies.RegisteredNodeIsFound | internal/controlplane/memory.go:151-207 | A registered node is found as it was registered, with the defaults for what was left open, until it is heard of again; after more than 20 seconds of silence it is unavailable |
| MemberReplies.BeatenNodeIsFound | internal/controlplane/memory.go:172-207 | After a heartbeat a node is found with its time, ready if it was unset, unknown or unavailable, else in the state it had, all other fields as they were; after more than 20 seconds it is unavailable |
| MemberReplies.BeatIsAnswered | internal/controlplane/memory.go:172-194 | A heartbeat is accepted exactly for a node that a look would find |
| MemberReplies.UnknownNode | internal/controlplane/memory.go:172-207 | A node nobody has registered is not found and cannot report |
| MemberReplies.NodesAreListed | internal/controlplane/memory.go:209-223 | The list of nodes has just those a look would find, as it would find them |
| MemberReplies.RegisteredInstanceIsFound | internal/controlplane/memory.go:225-284 | The same of an instance, which is unavailable after more than 20 seconds of silence or once its node has been found so |
| MemberReplies.BeatenInstanceIsFound | internal/controlplane/memory.go:249-284 | The same of an instance after a heartbeat |
| MemberReplies.InstanceBeatIsAnswered | internal/controlplane/memory.go:249-271 | The same of an instance |
| MemberReplies.UnknownInstance | internal/controlplane/memory.go:249-316 | An instance never registered, or removed since, is not found and cannot report |
| MemberReplies.MatchesAreListed | internal/controlplane/memory.go:286-309 | The list of instances has just those a look would find with the profile, node and state asked for, where an empty one is any |
| MemberReplies.NamesAreRequired | internal/controlplane/memory.go:151-316 | What is turned away for a missing name |
| Liveness.NormalizeAbsorbs | internal/controlplane/liveness.go:10-48 | Normalising twice, in either order of the times, is normalising once at the later |
| Liveness.RemovalCommutes | internal/controlplane/memory.go:311-316 | Removing an instance commutes with normalising, so it need not normalise |
| MemoryStore.Store.AcquireLeader | internal/controlplane/memory.go:63-94 | The new contents and the reply are those of one step of the specification: grant under the next epoch, or the holder in the way; a bad name or TTL changes nothing |
| MemoryStore.Store.RenewLeader | internal/controlplane/memory.go:96-119 | Extends the entry of this holder and epoch unless it has expired, else refuses and changes nothing |
| MemoryStore.Store.GetLeader | internal/controlplane/memory.go:121-135 | Finds the unexpired entry; an expired one is deleted |
| MemoryStore.Store.ReleaseLeader | internal/controlplane/memory.go:137-149 | Deletes the entry of this holder and epoch and leaves the epoch counter; anything else is left alone |
| MemoryStore.Store.AcquireTask | internal/controlplane/memory.go:400-440 | The same for the one task named, in the nested maps of requests and tasks; no other task changes |
| MemoryStore.Store.RenewTask | internal/controlplane/memory.go:541-571 | The same for a task |
| MemoryStore.Store.GetTask | internal/controlplane/memory.go:573-592 | The same for a task |
| MemoryStore.Store.ReleaseTask | internal/controlplane/memory.go:594-616 | The same for a task; the map of a request goes with its last entry, unobservably |
| MemoryStore.Store.AcquireProfile | internal/controlplane/memory.go:442-480 | A live lease of the same owner and instance is extended under its epoch, another is in the way, else the next epoch is granted |
| MemoryStore.Store.RenewProfile | internal/controlplane/memory.go:482-507 | The same for a profile |
| MemoryStore.Store.GetProfile | internal/controlplane/memory.go:509-524 | The same for a profile |
| MemoryStore.Store.ReleaseProfile | internal/controlplane/memory.go:526-539 | The same for a profile |
| MemoryStore.Store.RegisterNode | internal/controlplane/memory.go:151-170 | Normalises all members and stores the node with the defaults for state and times |
| MemoryStore.Store.HeartbeatNode | internal/controlplane/memory.go:172-194 | Normalises, then sets the time and brings an unknown or unavailable node back; a missing node is an error that keeps the normalisation |
| MemoryStore.Store.GetNode | internal/controlplane/memory.go:196-207 | Normalises, keeps that, and finds the node |
| MemoryStore.Store.ListNodes | internal/controlplane/memory.go:209-223 | Normalises, keeps that, and returns all nodes |
| MemoryStore.Store.RegisterInstance | internal/controlplane/memory.go:225-247 | The same for an instance |
| MemoryStore.Store.HeartbeatInstance | internal/controlplane/memory.go:249-271 | The same for an instance |
| MemoryStore.Store.GetInstance | internal/controlplane/memory.go:273-284 | The same for an instance |
| MemoryStore.Store.ListInstances | internal/controlplane/memory.go:286-309 | Normalises, keeps that, and returns just the instances that match the filter |
| MemoryStore.Store.RemoveInstance | internal/controlplane/memory.go:311-316 | Removes the instance and does not normalise |
| MemoryStore.Store.NormalizeMembershipLiveness | internal/controlplane/liveness.go:10-25 | The two loops over the maps, in whatever order, compute the normalisation: nodes first, then the instances against the decayed nodes |
| FileStore.Handle.Load | internal/controlplane/file.go:96-139 | A handle holds what the file holds, an empty state if there is none; a file of another fabric is refused and the handle keeps its fields |
| FileStore.Handle.Save | internal/controlplane/file.go:171-223 | The file holds the whole state of the handle |
| FileStore.Handle.WithState | internal/controlplane/file.go:225-235 | A read replies as the specification does on what is in the file, and never changes the file, although it normalises the fields of the handle |
| FileStore.Handle.WithMutableState | internal/controlplane/file.go:237-250 | An operation writes its result back exactly if it succeeds: one that fails after changing the fields of the handle leaves the file as it was |
| FileStore.Handle.Exec | internal/controlplane/file.go:267-327 | What is rejected for its arguments, a TTL among them, is rejected before the file is opened; otherwise nothing a handle holds from before matters to what it does next, except its fabric, and that becomes the one in the file or stays |
| FileStore.FileChangesOnSuccessOnly | internal/controlplane/file.go:225-250 | A successful operation that is not a mere read is in the file afterwards, and any other leaves it as it was |
| FileStore.RejectedExactly | internal/controlplane/file.go:267-327 | What is rejected before the file is opened is just what no state of a store would accept |
| FileStore.ForeignHandleIsInert | internal/controlplane/file.go:96-139 | A handle for another fabric can neither change the file nor learn from it: all it gets are errors that do not depend on the file |
| FileStore.FileStoreRefinesMemoryStore | internal/controlplane/file.go:225-250 | Every operation on the file, as the handles of a fabric do them, gets the reply one in-process store gives, if the clock does not go back under the lock |
| FileStore.TakeTurns | internal/controlplane/file.go:225-250 | Any number of handles on one file, new or left behind by earlier runs, taking turns in any order, and once there is a file also those of other fabrics or of none: every reply to a handle of the fabric is the one the in-process store would give if the foreign handles did not exist, and those get errors |
| EtcdStore.Store.AcquireLeader | internal/controlplane/etcd.go:74-117 | Writes entry and epoch under their own keys exactly when it grants a new epoch; otherwise at most the entry |
| EtcdStore.Store.RenewLeader | internal/controlplane/etcd.go:119-149 | Rewrites the entry of this holder and epoch, unless it has expired, and never the epoch |
| EtcdStore.Store.GetLeader | internal/controlplane/etcd.go:151-160 | Reports an expired entry as absent and writes nothing |
| EtcdStore.Store.ReleaseLeader | internal/controlplane/etcd.go:162-175 | Deletes the entry of this holder and epoch and leaves the epoch key |
| EtcdStore.Store.AcquireTask | internal/controlplane/etcd.go:423-466 | Writes entry and epoch under their own keys exactly when it grants a new epoch; otherwise at most the entry |
| EtcdStore.Store.RenewTask | internal/controlplane/etcd.go:581-611 | Rewrites the entry of this holder and epoch, unless it has expired, and never the epoch |
| EtcdStore.Store.GetTask | internal/controlplane/etcd.go:613-622 | Reports an expired entry as absent and writes nothing |
| EtcdStore.Store.ReleaseTask | internal/controlplane/etcd.go:624-637 | Deletes the entry of this holder and epoch and leaves the epoch key |
| EtcdStore.Store.AcquireProfile | internal/controlplane/etcd.go:468-521 | Writes entry and epoch under their own keys exactly when it grants a new epoch; otherwise at most the entry (a live lease of the same owner and instance is extended in place) |
| EtcdStore.Store.RenewProfile | internal/controlplane/etcd.go:523-553 | Rewrites the entry of this holder and epoch, unless it has expired, and never the epoch |
| EtcdStore.Store.GetProfile | internal/controlplane/etcd.go:555-564 | Reports an expired entry as absent and writes nothing |
| EtcdStore.Store.ReleaseProfile | internal/controlplane/etcd.go:566-579 | Deletes the entry of this holder and epoch and leaves the epoch key |
| EtcdStore.BucketHoldsCells | internal/controlplane/etcd.go:74-175 | In every run each lease in the flat bucket lives the life of one lease key with lazy reads |
| EtcdStore.EtcdAgreesWithMemoryStore | internal/controlplane/etcd.go:423-637 | On every run with readings in order every lease operation gets the same reply from the flat layout, which deletes nothing on read, as from the in-process store, which does |
| EtcdStore.EtcdAgreesExactly | internal/controlplane/etcd.go:423-637 | With readings in any order every lease operation gets the same reply from both stores exactly if on no key anything goes by an entry that a read has found expired before |
| Dispatch.AlwaysAccounted | internal/conductor/scheduler.go:297-579 | The invariant of every interleaving of the loop and its goroutines: single flight, slots, accounting, nobody passed over |
| Dispatch.PendingCountsDispatched | internal/conductor/scheduler.go:325-570 | Outside a drain, `dispatched` is exactly the set of tasks whose completion is unconsumed and `pending` is its size |
| Dispatch.LimitsHold | internal/conductor/scheduler.go:228-245 | The in-flight count of a profile is the number of goroutines holding its slots and never exceeds its limit |
| Dispatch.NeverTwice | internal/conductor/scheduler.go:374-403 | No task is in two goroutines at once, pauses included |
| Dispatch.ChannelNeverFull | internal/conductor/scheduler.go:325-404 | A goroutine that reports always finds room in the channel of completions |
| Dispatch.BackOffIsUnreachable | internal/conductor/scheduler.go:498-507 | The back-off with nothing pending and a ready task is dead code |
| Dispatch.StartsWhatItCan | internal/conductor/scheduler.go:372-404 | A ready task that is looked at is started exactly if it is not out and its profile has a slot left, in one new goroutine that holds a slot |
| Dispatch.NoneHeldBack | internal/conductor/scheduler.go:372-404 | When the loop has gone through the ready tasks, each is out, or every slot of its profile was held when it was looked at in this round |
| Dispatch.WaitsExactly | internal/conductor/scheduler.go:496-520 | Then it waits exactly if anything is out, and reports a deadlock exactly if nothing is although not all is done; no task was ready then |
| Dispatch.WaitsForSomething | internal/conductor/scheduler.go:509-570 | While it waits, a goroutine runs or a completion is there to be received |
| Dispatch.AgentSlots.TryAcquireAgent | internal/conductor/scheduler.go:228-237 | Succeeds exactly below the limit (or without one) and then counts one more, else changes nothing |
| Dispatch.AgentSlots.ReleaseAgent | internal/conductor/scheduler.go:239-245 | Counts one less, never below zero |
| Demux.Demultiplexer.Subscribe | internal/conductor/scheduler.go:123-138 | A new channel holds just the stored messages of the task, in order, and the others stay stored in order; the call blocks in a send exactly if more are stored than the channel takes |
| Demux.Demultiplexer.Unsubscribe | internal/conductor/scheduler.go:140-151 | Forgets the waiter and drops exactly the stored messages of the task |
| Demux.Demultiplexer.ClearOverflow | internal/conductor/scheduler.go:153-163 | Drops exactly the stored messages of the task |
| Demux.Demultiplexer.Route | internal/conductor/scheduler.go:165-183 | Hands the message to the waiter of its task if there is one with room, else stores it last |
| Demux.OthersKeep | internal/conductor/scheduler.go:128-136 | Filtering for one task keeps the messages of another as they were, in order |
| Demux.AlwaysConserved | internal/conductor/scheduler.go:113-183 | The invariant of every run: places, order, owners and capacity |
| Demux.EveryMessageIsInOnePlace | internal/conductor/scheduler.go:113-183 | Every routed message is in exactly one of the store, one channel, what was received from one channel, or the discarded (dropped by a call or left in an abandoned channel), and there once |
| Demux.OnlyItsOwnTaskDiscards | internal/conductor/scheduler.go:140-163 | A message is thrown away only on behalf of the task it names |
| Demux.ReceivedInOrder | internal/conductor/scheduler.go:165-183 | One subscription receives messages of its own task only, in the order of their arrival |
| Demux.OthersUntouched | internal/conductor/scheduler.go:113-183 | No action about one task changes the stored messages, the waiter or the channel contents of another |
| Demux.SubscribingCanBlock | internal/conductor/scheduler.go:128-132 | After n unclaimed messages for a task subscribing to it blocks, holding the lock, exactly if n > 16 |
| Demux.DeliveredOrStored | internal/conductor/scheduler.go:165-183 | A message for a task somebody waits for goes last into that one's channel if that has room, any other is stored last, and nothing else changes; who waits is read off the calls |
| Demux.SubscriberGetsWhatWasStored | internal/conductor/scheduler.go:123-138 | A new subscriber finds in its own new channel just what was stored for its task, in order, and none of it stays stored |
| Demux.NothingStaysStored | internal/conductor/scheduler.go:140-163 | After a task has unsubscribed or its messages are cleared, none is stored for it, and those of others are |
| Demux.StuckForGood | internal/conductor/scheduler.go:124-132 | From then on nothing more is routed, for any task |
| Demux.WaitForResult | internal/conductor/scheduler.go:1680-1754 | Ends with the first event that is not ignored: with its message, which is a result or an escalation and not stale, or with the failure that event means; waits on otherwise |
| Demux.WhatEndsTheWait | internal/conductor/scheduler.go:1698-1752 | What ends the wait, case by case: any event but a passed health check, another kind of message, a query that was passed on, and a result with a nonce that is not the expected one |
| Demux.ResultIsOfThisDispatch | internal/conductor/scheduler.go:1716-1727 | With a nonce of its own for every dispatch, a result that carries a nonce and ends a wait carries that of this dispatch and was routed for this task |
| Placement.CountersAreOutstanding | internal/conductor/scheduler.go:1470-1500 | In every interleaving the counters of instances and nodes are the numbers of outstanding placements |
| Placement.ClampsNeverFire | internal/conductor/scheduler.go:1488-1500 | When a placement is finished, the counters it lowers are above zero |
| Placement.PlacementsComeAndGo | internal/conductor/scheduler.go:1083-1111 | A node below its limit, or without one, lets exactly one more placement through; giving up and finishing take one away, and only counting counts it |
| Placement.OvershootBound | internal/conductor/scheduler.go:1083-1110 | A node with limit m > 0 never has more than m + k - 1 tasks if at most k placements are between its check and their count; with atomic placements, k = 1, never more than m |
| Placement.OvershootIsReached | internal/conductor/scheduler.go:923-1010 | For every limit and every k there is a run that reaches that bound |
| Placement.InstanceCounters.AcquireInstance | internal/conductor/scheduler.go:1470-1486 | Counts a named instance and its named node, and nothing for an unnamed instance |
| Placement.InstanceCounters.ReleaseInstance | internal/conductor/scheduler.go:1488-1500 | Takes back the same, never below zero |
| Selection.PlacementIsAnOrder | internal/conductor/scheduler.go:1120-1152 | The comparator with seven criteria is irreflexive, transitive and decides between any two instances with different IDs |
| Selection.SelectTaskInstance | internal/conductor/scheduler.go:1083-1155 | None exactly if no instance is eligible; the instance the task was on if that is eligible; else an eligible one that no eligible one comes before; whatever sort is used |
| Selection.IsEligible | internal/conductor/scheduler.go:1095-1111 | Routable state and address, schedulable node with the required labels, node below its limit |
| Selection.EligibleExactly | internal/conductor/scheduler.go:1095-1111 | The same with states, labels and limits written out |
| Selection.ChosenIsBest | internal/conductor/scheduler.go:1120-1152 | No eligible instance is on a node with fewer tasks than the chosen one; at equal counts none has fewer itself, then none is on a node the request uses less, then on one that takes more, then is ready while the chosen one is busy, then was heard of later, then has the smaller ID |
| Selection.PreviousIsKept | internal/conductor/scheduler.go:1113-1119 | The instance the task was on is chosen again if it can be placed on |
| Selection.PlacementIsDetermined | internal/conductor/scheduler.go:1083-1155 | With distinct IDs that leaves one answer, the same for every permutation of the instances |
| Selection.RoutingIsAnOrder | internal/controlplane/discovery.go:84-93 | The comparator with three criteria is irreflexive, transitive and decides between any two instances with different IDs |
| Selection.SelectInstance | internal/controlplane/discovery.go:83-106 | None exactly if no instance is routable, else a routable one that no routable one comes before |
| Selection.ResolutionIsDetermined | internal/controlplane/discovery.go:83-106 | With distinct IDs that leaves one answer, the same for every permutation of the instances |
| Selection.ResolvedExactly | internal/controlplane/discovery.go:83-106 | A name is resolved exactly if somebody who is ready or busy has an address, and to such a one |
| Selection.ResolvedIsBest | internal/controlplane/discovery.go:84-93 | That one is ready if any is, then the one heard of last, then the one with the smallest ID |
| DirPrefix.CommonDirPrefix | internal/conductor/scheduler.go:2848-2873 | Terminates, and returns the longest string ending in "/" that is a prefix of every path, or "" if there is none |
| DirPrefix.LongestIsUnique | internal/conductor/scheduler.go:2846-2848 | That answer depends on the set of paths alone |
| FileBlocks.CountTicks | internal/agent/artifact.go:79-98 | The loop over leading backticks counts them |
| FileBlocks.FencesLookLikeThis | internal/agent/artifact.go:79-124 | Which lines close a fence, open one within it, or open a file block, by the white space, the backticks and the rest a line is made of |
| FileBlocks.FencedBlockIsRead | internal/agent/artifact.go:17-77 | A header with three or more backticks and an accepted path, lines in which every fence of that length is closed, and a closing fence at least as long are read as one block with these lines; at the end of the text also without the closing fence |
| FileBlocks.ParseFileBlocks | internal/agent/artifact.go:17-77 | The line loop with its current block, fence and depth computes the reading the facts below are about |
| FileBlocks.FeedIgnoresPast | internal/agent/artifact.go:17-77 | What has been read already does not influence how later lines are read |
| FileBlocks.FeedInside | internal/agent/artifact.go:38-52 | Lines in which every closing fence has its opening one are kept in the block as they are |
| Paths.CleanIsStable | internal/agent/artifact.go:124-138 | The cleaned form of an accepted path is accepted and cleaning leaves it alone |
| Paths.CleanLeadsToTheSamePlace | internal/agent/artifact.go:50-58 | Cleaning a path does not change where it leads from any directory, and leaves no step that leads nowhere or back |
| Paths.ValidExactly | internal/agent/artifact.go:126-140 | The accepted paths are those that are relative and at no point lead above the directory they start from |
| Paths.CleanCanUntrim | internal/agent/artifact.go:50-58 | Cleaning a trimmed path can leave white space at its end |
| RoundTrip.PrintedPrefix | internal/agent/agent.go:1128-1138 | Reading printed blocks followed by any text gives these blocks and then what the text alone gives |
| RoundTrip.RoundTrip | internal/agent/artifact.go:17-77 | For good paths, reading back printed blocks gives the same list exactly if the fences within every content are balanced |
| RoundTrip.ClosedIsBalanced | internal/agent/artifact.go:38-52 | A block that its own three-backtick fence closes has balanced content |
| RoundTrip.TidyIsBalanced | internal/agent/artifact.go:17-77 | If only three-backtick fences open blocks and all are closed, every block read is balanced |
| RoundTrip.NeverFound | internal/agent/artifact.go:17-77 | Reading that has missed the header of a printed block, with balanced contents, never finds the printed blocks, wherever it goes on: no content begins like its own rest up to the closing fence |
| RoundTrip.ReadPrintRead | internal/agent/artifact.go:17-77 | On such texts reading, printing and reading again gives what the first reading gave exactly if cleaning left every path trimmed |
| Pipeline.LatestBlockContent | internal/agent/agent.go:1193-1200 | The backward search finds the content last written under the path |
| Pipeline.LatestIsLast | internal/agent/agent.go:1193-1200 | It is that of the last block of the path |
| Pipeline.UniqueFilePaths | internal/agent/agent.go:1180-1191 | The loop with its set of seen paths computes the paths the next row is about |
| Pipeline.UniquePathsInOrder | internal/agent/agent.go:1180-1191 | Every non-empty path is listed, and they are listed in the order of first sight |
| Pipeline.PlainPrefix | internal/agent/artifact.go:17-77 | A text that opens no block adds none to what is read after it |
| FinalResponse.SynthesizeFinalFromAccumulated | internal/agent/agent.go:1155-1178 | The builder writes the text the next row is about |
| FinalResponse.SynthesisKeepsTheLatest | internal/agent/agent.go:1155-1178 | Reading a synthesised response gives every path once, in the order of first sight, with the content last written |
| FinalResponse.StripRedundantBlocks | internal/agent/agent.go:1064-1110 | The loops write the text the next row is about |
| FinalResponse.StrippedBlocks | internal/agent/agent.go:1064-1110 | Reading a stripped response gives exactly the blocks that are new or differ by more than outer white space |
| FinalResponse.MergeAccumulatedBlocks | internal/agent/agent.go:1115-1150 | The loop writes the text the next row is about |
| FinalResponse.MergedBlocks | internal/agent/agent.go:1115-1150 | Reading a merged response gives the collected blocks it lacked, each path once, and then its own |
| Prose.ProseSurvives | internal/agent/agent.go:1064-1137 | What a response says around its file blocks is what it says after stripping and merging, up to surrounding white space |
| Prose.SynthesisSays | internal/agent/agent.go:1155-1178 | A synthesised response says the four lines that name its files |
| StripMerge.StripThenMerge | internal/agent/agent.go:1064-1150 | After strip and merge no path is lost; the last version of a path in the final response survives, up to outer white space, exactly if the path was not collected, or this version differs from the last one collected, or all its versions repeat that one and the first one collected does, too; other paths are read as collected first |
| StripMerge.LatestSurvivesExactly | internal/agent/agent.go:1064-1150 | The same said of lists of blocks, without any hypothesis on them |
| StripMerge.OverridesWhenAgreed | internal/agent/agent.go:1064-1150 | If the final response repeats no path and the collected blocks agree, it overrides them, and nothing is lost or repeated |
| StripMerge.RepeatedPathLosesTheLatest | internal/agent/agent.go:1071-1083 | A text that writes a file twice, the second time as collected, is read back with the first version |
| StripMerge.CollectedTwiceLosesTheLatest | internal/agent/agent.go:1071-1137 | A text that repeats the last of two collected versions is read back with the first of them |
| ToolLoop.GenerateWithTools | internal/agent/agent.go:222-555 | For every world (model, tools, verification, disk) the loop returns the result the next rows are about, which is read off the world iteration by iteration |
| ToolLoop.RunIsBounded | internal/agent/agent.go:222-555 | At most M + 10 (shell-only) + R*B iterations, two questions an iteration and two more, R failures and R + 1 verifications |
| ToolLoop.LimitLeavesRoom | internal/agent/agent.go:246-377 | However often the limit is set anew, it leaves room for all that redirects and failed verifications can still grant |
| ToolLoop.TrailIsComplete | internal/agent/agent.go:293-312 | The answers kept are all that called tools among the questions asked: a question is asked again only if it had no answer |
| ToolLoop.ResultTrail | internal/agent/agent.go:393-423 | The collected blocks of a result are those of all answers of the loop that called tools, in order |
| ToolLoop.IterationsAddUp | internal/agent/agent.go:246-450 | Every iteration before the last called tools, was redirected, or failed its verification |
| ToolLoop.AbortsExactly | internal/agent/agent.go:258-543 | A run ends with an error exactly if the budget is refused, a question stays unanswered, or the last answer calls tools outside shell-only mode |
| ToolLoop.ForcedExactlyAtLimit | internal/agent/agent.go:430-458 | A response is forced only at the iteration limit or after exactly three answers in a row that only looked |
| ToolLoop.StagnationExactly | internal/agent/agent.go:430-441 | Three answers in a row that only look at what has been collected end the loop at once, and without an answer of the model's own |
| ToolLoop.LimitIsSetAnew | internal/agent/agent.go:246-377 | The limit is five iterations after the last redirect or the configured number, or five, after the last failed verification |
| ToolLoop.LimitAtFirst | internal/agent/agent.go:246-258 | Before anything is sent back the limit is the one asked for, or seven |
| ToolLoop.AnswerWasNoRedirect | internal/agent/agent.go:320-360 | In shell-only mode an answer with file blocks, or before any tool call, is returned only after two such have been sent back |
| ToolLoop.AnswerIsTheLastOne | internal/agent/agent.go:361-389 | An answer returned is the one to the last question, without tool calls; its verification passed, or all retries had failed and it is returned neither verified nor marked |
| ToolLoop.FailuresFailed | internal/agent/agent.go:361-378 | Every verification that sent an answer back has failed |
| ToolLoop.ForcedIsVerified | internal/agent/agent.go:460-487 | A forced response is verified once more and marked exactly if that fails |
| ToolLoop.CaptureFromScratch | internal/agent/agent.go:973-986 | Contents are replaced by what is on disk, in place, and paths never change |
| LoopArtifacts.ArtifactsSurvive | internal/agent/agent.go:222-555 | Every path written in any answer of the loop that called tools is in the final response; a forced response has the last content of each |
| LoopArtifacts.AnsweredContentsExactly | internal/agent/agent.go:381-389 | Which content each path of a returned answer is read back with: the exact condition of strip and merge, on the captured blocks |
| LoopArtifacts.AnswerKeepsProse | internal/agent/agent.go:381-389 | What the returned answer says around its file blocks is what the model said |
| LoopArtifacts.ForcedAnswer | internal/agent/agent.go:489-555 | A forced response without collected blocks is, after the mark of a failed verification, the last answer to a question asked after all those of the loop; a second such question is asked only in shell-only mode and after tool calls |
| LoopArtifacts.PresentFilesSurvive | internal/agent/agent.go:973-986 | A file that the answer writes once and that can be read back from disk keeps its last version |
| LoopArtifacts.DeletedFileComesBackOld | internal/agent/agent.go:381-389 | A whole run that loses a version: a file written twice and deleted, whose last version the answer repeats, is read back as it was first |
| CompactHistory.EstimateTokens | internal/agent/agent.go:1204-1214 | The loops add up the estimates of all messages and their calls |
| CompactHistory.EstimateIsAQuarter | internal/agent/agent.go:1204-1214 | The estimate is 4 for each message, the length of each ID, and a quarter of all characters, short by less than one for every text |
| CompactHistory.DedupStrings | internal/agent/agent.go:1278-1288 | Every name once, in the order of first occurrence |
| CompactHistory.DedupedInOrder | internal/agent/agent.go:1278-1288 | Of two names the one listed first occurs before the other ever does |
| CompactHistory.SummaryTells | internal/agent/agent.go:1249-1275 | The summary gives the number of the model's messages that were dropped and every tool they called, once |
| Text.ListedAppend | internal/agent/agent.go:1265-1267 | Lists of names are put together with a comma and a space |
| CompactHistory.TailThatFits | internal/agent/agent.go:1225-1243 | The backward loop finds the longest tail that fits the rest of the budget |
| CompactHistory.CompactToolHistory | internal/agent/agent.go:1220-1276 | The first two messages, one summary of what is dropped, and that tail; unchanged if nothing is dropped |
| CompactHistory.TailIsUnique | internal/agent/agent.go:1225-1243 | There is only one such tail, so the result is determined |
| CompactHistory.NeverLonger | internal/agent/agent.go:1268-1275 | The list never gets longer, keeps its first two messages and ends with the tail |
| CompactHistory.CostBound | internal/agent/agent.go:1204-1276 | The estimate of the result is at most the budget or that of the first two contents, whichever is more, plus the summary, plus the calls of the first two, which the code never counts |
| TruncateDeps.Truncate | internal/agent/agent.go:2699-2761 | Texts within the budget are returned as they are; otherwise each is shown against its share, with both divisions rounding down |
| TruncateDeps.SomeTextIsLong | internal/agent/agent.go:2726-2740 | When the texts exceed the budget at least one exceeds its share, so the surplus is always given to someone |
| TruncateDeps.KeptFitsBudget | internal/agent/agent.go:2699-2761 | In total at most max(budget, 4096) characters of the texts are kept |
| TruncateDeps.BudgetIsUsed | internal/agent/agent.go:2724-2740 | What short texts leave goes to the long ones: together all may keep the whole budget but for less than one character for each text and one for each long text |
| Decimal.FormattedIsTheNumber | internal/agent/agent.go:2742-2760 | A formatted number is that number, in digits, without zeros in front |
| TruncateDeps.ShownKeeps | internal/agent/agent.go:2742-2760 | A text that fits its share is unchanged; of any other a prefix is kept, more than half the limit long, ending at the limit or before a line break; the number reported missing is counted from the limit |
| TruncateDeps.ReportIsRightExactly | internal/agent/agent.go:2748-2755 | That number is never too large, and it is right exactly if the second half of the limit has no line break |
| TruncateDeps.ReportIsTooSmall | internal/agent/agent.go:2748-2755 | A text that loses 2001 characters and is said to have lost 905 |
| TruncateDeps.CutAll | internal/agent/agent.go:2742-2760 | No slice is out of bounds |
| CARotation.RequestedTTL | internal/identity/localdev.go:407-416 | Between nothing and 24 hours; what was asked if that is in range |
| CARotation.PruneRetiredRoots | internal/identity/localdev.go:342-361 | Keeps exactly the non-empty roots whose time is still to come, in order |
| CARotation.PrunedTwice | internal/identity/localdev.go:342-361 | Pruning now and again later is pruning once later |
| CARotation.BuildTrustBundle | internal/identity/localdev.go:288-315 | There is a bundle exactly if every root parses; it holds the active root and every non-empty retired one, in order |
| CARotation.LinesArePrinted | internal/identity/localdev.go:299-315 | The text of a bundle is all its roots in order, each with a line break after it unless it ends with one, and nothing else |
| CARotation.Issuer.EnsureSharedIssuerState | internal/identity/localdev.go:206-241 | One load of the shared issuer: prune, rotate within the window, retire the old root unless it has expired |
| CARotation.LoadedOutlivesWindow | internal/identity/localdev.go:206-241 | The CA a load returns expires more than 30 days later |
| CARotation.TrustCoverage | internal/identity/localdev.go:18-25 | A leaf signed less than an hour after its CA was loaded can be verified with every bundle built up to its expiry, across any rotations and prunings; its issuer stands in their text from the start of a line to the end of one |
| CARotation.CoveredExactlyBeforeMargin | internal/identity/localdev.go:18-25 | A leaf is covered in every run exactly if it expires before the earliest rotation of its CA (30 days before its end) plus 25 hours |
| Restructure.FreshID | internal/conductor/conductor.go:1505-1508 | Terminates with the shortest name with letters appended that is not taken |
| Restructure.RestructureGraph | internal/conductor/conductor.go:1488-1527 | The completed tasks as they were, then the decomposed ones as the next rows describe them |
| Restructure.CompletedStay | internal/conductor/conductor.go:1488-1498 | The completed tasks are all there as they were, in their order |
| Restructure.WorkStays | internal/conductor/conductor.go:1503-1527 | A new task has the work of the decomposed one and is pending |
| Restructure.NewIDsAreFresh | internal/conductor/conductor.go:1499-1512 | New IDs differ from each other and from those of completed tasks, whatever the decomposed IDs were |
| Restructure.RenamingIsExactlyInOrder | internal/conductor/conductor.go:1503-1527 | Every dependency follows its task to its new name exactly if no task depends on a later one whose ID is taken when the loop comes to it |
| Restructure.RenamedIfTaken | internal/conductor/conductor.go:1505-1511 | A task is renamed exactly if its ID is taken by a completed task or by a new ID given before |
| Restructure.DependenciesFirstFollow | internal/conductor/conductor.go:1503-1527 | If every task is listed after its dependencies, every dependency follows |
| Restructure.NewPartIsIsomorphic | internal/conductor/conductor.go:1488-1527 | Then the new part has exactly the edges of the decomposed graph, also where an ID looks like the new name of another |
| Restructure.LaterDependencyIsCaught | internal/conductor/conductor.go:1509-1525 | A dependency on a later task whose ID is that of a completed one never follows: it is left leading to the completed task |

## Left out

- gRPC, TLS, certificates as such, identity files, the CLI and UI, sandboxing, the model calls themselves: I/O and foreign code; the model, the tools, the file system and the clock are arguments.
- JSON encoding, temporary files, renaming and `flock`: saving and loading are the identity on the state and a locked operation is one step. Crashes are not modelled.
- Retries of etcd transactions: each body is one atomic step. The captured `acquired` and `lease` variables (internal/controlplane/etcd.go:84, internal/controlplane/etcd.go:438) are not reset between attempts, and a model with retries would have to show that.
- Etcd membership: its heartbeats do not normalise first (internal/controlplane/etcd.go:193-216), so it does not agree with the in-process store. IDs with "/" in etcd keys are not modelled either: keys are values of a type.
- Requests, task records and attested nodes: maps that are written and read.
- 64-bit overflow of epochs and of nanosecond times after 2262.
- Error texts: every error of an operation is one value, apart from the failures `Demux.WaitForResult` and `TaskHealth.CheckTaskExecutionHealth` tell apart.
- MemoryStore.Store.ListNodes: the result is the map of the nodes, where the code sorts them by ID.
- MemoryStore.Store.ListInstances: the result is the map of the matches, where the code sorts them by ID.
- FileStore.Handle.Exec: takes the operation as a value where the code passes a closure.
- Graph replacement in the dispatch loop: it empties `dispatched` with goroutines still running (internal/conductor/scheduler.go:514-520), so single flight does not carry over. Freedom from deadlock is not claimed: the task graph is not part of this model, only that its ready tasks are distinct tasks of the graph.
- Demux.StuckForGood: a call to subscribe that blocks is, in a run, a state in which channels can only be read; the messages it had moved by then (`Demux.Demultiplexer.Subscribe` says which) still count as stored, because nobody can get at them either way.
- Demux.ResultIsOfThisDispatch: says nothing of results without a nonce, which the code accepts on purpose (internal/conductor/scheduler.go:1716-1718).
- Placement by review loops, and the choice of an instance by ID: `findSchedulableInstanceByID` can fall back to another candidate (internal/conductor/scheduler.go:1157-1173).
- How often a request already uses a node is part of the snapshot of `Selection`, not computed from the graph; node records of different IDs only.
- ToolLoop.GenerateWithTools: leaves out what the messages sent to the model contain (prompts, trimmed tool results, nudges), and lets the history's compaction only decide whether a failed question is asked again; tools have no result that matters.
- LoopArtifacts.ArtifactsSurvive: assumes blocks that can be printed and read back, and a verification output that opens no file block when the response carries one.
- Lengths are in characters, not bytes; invalid UTF-8 and paths of Windows are not modelled.
- Sharing of one `DependsOn` slice by several tasks, and other aliasing of Go slices.
- CARotation.TrustCoverage: assumes that a new CA outlives the 30-day window (it is made for a year) and has a certificate no other has, and that clocks do not go back.
- The review-loop state machine, the knowledge store, verdict heuristics, prompt building, configuration and benchmark statistics: easy or unsuitable members.
