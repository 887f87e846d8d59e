# Verified models of five components

This project models, in Dafny, the parts of the repository whose correctness rests on state that several
callers share, and proves what those parts promise. Five components are covered.

1. **Projection event protocol** (`apps/ops-sync`). Webhook events arrive out of order, are retried, and can
   stop between any two database statements. `ProjectionTables` has one function per SQL statement,
   `ProjectionProtocol` the interleaved step relation (deliver, one statement, failure of a statement, crash, time),
   `ProjectionInvariant` what every step keeps, `ProjectionTheorems` fencing, monotonic versions and convergence,
   `ProjectionTrail` what an attempt has done before it records a version, `ProjectionProgress` that a crash blocks
   nothing for good, and `ProjectionStore` the handlers themselves, each proved to take exactly the steps of the
   protocol, with their outcomes and writes. `Revocation` is the pass that revokes delivery grants, in batches of 75
   statements.
2. **Employee read gateway caches** (`apps/employee-read-gateway`). `SnapshotLedger` has one function per call
   under the cache lock or a lease lock, `SnapshotInvariant` and `SnapshotTheorems` the exact ledger, exact streaming,
   drain and minimal eviction, `SnapshotEffects` what single calls leave resident, `SnapshotCache` the mutable cache, its
   chunked reader and the two gateway operations on it, with other threads and timers acting in between.
   `DirectoryLedger`, `DirectoryRoom` and `DirectoryPages` do the same for directory listings, the room that can be made
   for them, their cursors and pages. `ReplayProtection` is the
   nonce table with the time tests that make it safe to forget, `GatewayPaths` the path check.
3. **ZIP inventory and its paged receipts** (`scripts/truenas`). `ZipBytes`, `ZipDirectory`, `ZipRecords` and
   `ZipPaths` parse the structures of APPNOTE.TXT (sections 4.3.12, 4.3.14 to 4.3.16 and 4.5.3) and compare the
   parser with a writer in both directions; `ZipTree` compares the incremental path tree with an order-free
   specification; `ZipInventory` puts them together; `Receipts` is the greedy pager and its optimality.
4. **Point budget and access hold** (`apps/viewer/public`). `PointBudget` is the controller with probes, rollback
   and backoff, `PointOverload` the exact condition on the frame times for overload to lower it, `PointRecovery` how fast
   health raises it; `AccessHold` the wrapper in which many denied requests share one renewal.
5. **Native staff reconciliation and the rate limiter** (`apps/ops-sync`, `apps/viewer/server`).
   `NativeStaffAccess` certifies a generation under a lease, `RateLimiter` has the exact condition for the
   sliding-window bound, `ShareToken` shows that the framing of token inputs is injective.

`Wrappers`, `PathText` and `Sorting` are shared helpers. An object that the source updates in place is a class
whose methods are proved against functions on values; the theorems over whole runs are about those functions.
A run is a sequence of actions chosen by anybody: clocks, scheduling, crashes, answers of other services and sizes
of reads are all parameters.

Two assumptions are part of the step relation of the projection protocol, because the code does not enforce them:
two attempts at the same event never overlap (the owner of a lease is the event id), and a write lands before the
lease that was refreshed just ahead of it expires.

Where comments in the source and its code differ, the code is what is modelled. The comments at
`apps/viewer/public/pointcloud-performance.js:219-220` and `:228-232` say that sustained slowness and frequent stalls
still make the budget adapt; `PointOverload.OverloadLowersExactly` says exactly when they do, and
`PointOverload.StutterExample` is an input on which they do not.

## Model

| member | source | states |
|---|---|---|
| ProjectionTheorems.Convergence | apps/ops-sync/src/projection.ts:208-305 | over every interleaving, once all receipts about an entity are terminal, its version names a delivered event with the largest source timestamp, and its rows in both databases are exactly what that event writes; without deliveries there is no version and no row |
| ProjectionTheorems.OrderDoesNotMatter | apps/ops-sync/src/projection.ts:208-305 | two runs that accepted the same events about an entity end with the same timestamp, and, unless two events share one, with the same version, row and delivery row, whatever the order, the retries and the crashes |
| ProjectionTheorems.VersionsNeverGoBack | apps/ops-sync/src/projection.ts:214-222 | over any continuation of any run an entity's recorded version is unchanged or strictly newer; on equal timestamps the event applied first stays |
| ProjectionTheorems.StepMovesForwards | apps/ops-sync/src/projection.ts:297-297 | the single step behind it: a version is replaced only by a strictly newer one |
| ProjectionTheorems.OnlyTheLeaseHolderWrites | apps/ops-sync/src/projection.ts:278-297 | in every run, row, delivery row and version of an entity change only in a statement of an attempt about that entity which at that moment owns its unexpired entity lease |
| ProjectionTheorems.WritesAreFenced | apps/ops-sync/src/projection.ts:192-201 | the same for one step from any state that satisfies the invariant |
| ProjectionTheorems.UnexpiredLeaseIsSafe | apps/ops-sync/src/projection.ts:38-60 | no action but its owner's changes or deletes an unexpired lease, global or per entity |
| ProjectionTheorems.WritersExclude | apps/ops-sync/src/projection.ts:285-297 | of two attempts about to write the same entity, or to revoke for the same source, within their fences, both are the same attempt |
| ProjectionTheorems.ReceiptsStayFiled | apps/ops-sync/src/projection.ts:209-211 | a receipt keeps its payload for good and a terminal one stays terminal |
| ProjectionTheorems.StepKeepsReceipts | apps/ops-sync/src/projection.ts:386-394 | no statement, failure or crash replaces a receipt's payload or reopens a terminal receipt |
| ProjectionTheorems.CompletedOnlyAfterForward | apps/ops-sync/src/projection.ts:324-358 | a portal event or delivery intent has a completed receipt only if the receiving service accepted it |
| ProjectionTheorems.EnrolmentStays | apps/ops-sync/src/projection.ts:113-137 | events update delivery rows that exist and neither create nor remove any |
| ProjectionTheorems.SettledPortalRow | apps/ops-sync/src/projection.ts:291-295 | an enrolled delivery row is there after every run; once its entity is settled it carries exactly what a newest delivered event writes if it is a primary client, organization or project with a delivered event, and is untouched otherwise |
| ProjectionTrail.RecordedOnlyAfterRevocation | apps/ops-sync/src/projection.ts:278-297 | over every run the version of an entity changes only where an attempt records it that, in flight without a break, has written the row before and, for a primary client, organization or project, has after that written the delivery row and after that run the revocation pass up to the one batch that no other follows, each of these writes under its own unexpired lease, the batches under the global one |
| ProjectionTrail.SettledWasRevoked | apps/ops-sync/src/projection.ts:291-297 | once all receipts about a primary client, organization or project are terminal, a delivery of a newest of its events has done so and recorded the version |
| ProjectionTrail.EveryTrail | apps/ops-sync/src/projection.ts:278-297 | in every reachable state, what an attempt about to write has already written in the same delivery |
| ProjectionInvariant.StatementProgress | apps/ops-sync/src/projection.ts:208-305 | every statement leaves the tables consistent, disturbs no other attempt's knowledge, leases or receipts, and takes its own attempt to a phase whose facts hold |
| ProjectionInvariant.RunKeeps | apps/ops-sync/src/projection.ts:208-305 | the invariant that ties attempts, leases, receipts, versions and rows together holds after every sequence of actions |
| ProjectionProgress.RetrySettles | apps/ops-sync/src/index.ts:110-162 | from every reachable state, once the leases have lapsed, one undisturbed retry with the same payload brings the receipt to a terminal status and ends, in at most 24 actions and three more for each further revocation batch, whatever their number |
| ProjectionProgress.RunsToTheEnd | apps/ops-sync/src/projection.ts:311-322 | an attempt that has its leases ends with a terminal receipt within the number of statements its phase allows, and three more for each further revocation batch |
| ProjectionProgress.FailureGivesBack | apps/ops-sync/src/projection.ts:299-322 | whichever statement throws under the global lease, the finally blocks end the attempt in two statements at most, with the global lease given back, the entity lease as well if it was held, and nothing else changed |
| ProjectionStore.Store.constructor | apps/ops-sync/src/projection.ts:113-137 | empty tables and untouched delivery rows for what is enrolled |
| ProjectionStore.Store.Claim | apps/ops-sync/src/projection.ts:38-47 | a lease is claimed exactly if it is free or expired, whoever owns it, and runs for ten minutes |
| ProjectionStore.Store.Refresh | apps/ops-sync/src/projection.ts:54-60 | only the owner renews, even after expiry if nobody took over; everything else stays |
| ProjectionStore.Store.Release | apps/ops-sync/src/projection.ts:49-52 | only the owner's row is deleted |
| ProjectionStore.Store.AddPendingReceipt | apps/ops-sync/src/projection.ts:211-211 | the event is on file as pending |
| ProjectionStore.Store.UpdateStatus | apps/ops-sync/src/projection.ts:386-394 | only the status of an existing receipt changes |
| ProjectionStore.Store.ClaimGlobalLease | apps/ops-sync/src/projection.ts:38-47 | the lease is claimed exactly if it is free or expired; the attempt goes on, or ends without a trace |
| ProjectionStore.Store.ClaimEntityLease | apps/ops-sync/src/projection.ts:178-190 | the same for the entity; without it the attempt fails and still gives the global lease back |
| ProjectionStore.Store.ReleaseEntityLease | apps/ops-sync/src/projection.ts:203-206 | the entity lease is given back whatever the outcome |
| ProjectionStore.Store.RefreshLeases | apps/ops-sync/src/projection.ts:192-201 | both leases are renewed in order exactly if both are still owned, no other lease is touched, and the fence is the time of the second; losing either ends the attempt as failed |
| ProjectionStore.Store.PerformWrite | apps/ops-sync/src/projection.ts:285-297 | the row, the delivery row or the version, as the protocol writes it; exactly the write to a delivery database that is not there fails |
| ProjectionStore.Store.FencedWrite | apps/ops-sync/src/projection.ts:278-297 | a refresh and its write are a walk of the protocol on which exactly that write takes place, or to the release of the entity exactly if a lease is lost or the delivery database is missing |
| ProjectionStore.Store.FencedBatch | apps/ops-sync/src/projection.ts:172-175 | each batch of the revocation pass is fenced by the global lease, and runs exactly if that is owned |
| ProjectionStore.Store.FencedBatches | apps/ops-sync/src/projection.ts:172-175 | the loop runs exactly as many batches as there are on its way to the version, or none if the lease is lost |
| ProjectionStore.Store.FileReceipt | apps/ops-sync/src/projection.ts:209-211 | exactly another payload fails, exactly a terminal receipt is a duplicate unless the event is a delivery intent, and otherwise the event is on file |
| ProjectionStore.Store.ApplyClaimed | apps/ops-sync/src/projection.ts:214-298 | an event that is not newer is applied if it is the pending one the version names and ignored otherwise, and nothing is written; for a newer one everything is, or its row alone if the delivery database is missing |
| ProjectionStore.Store.WriteEverything | apps/ops-sync/src/projection.ts:278-298 | the writes that take place are the row, for a primary client, organization or project the delivery row and then all revocation batches, and last the version; only without a delivery database it fails after the row |
| ProjectionStore.Store.ApplyLocked | apps/ops-sync/src/projection.ts:208-305 | receipt check, entity lease, body and finally block are a walk of the protocol to the release of the global lease, with the outcome and the writes that the tables decide, and the entity lease given back |
| ProjectionStore.Store.FinishEvent | apps/ops-sync/src/projection.ts:386-394 | the global lease is given back and the receipt completed exactly if the event was applied |
| ProjectionStore.Store.HandleProjection | apps/ops-sync/src/projection.ts:311-322 | one delivery of a projection event is a complete run of the protocol; its outcome and the exact sequence of its writes, the revocation batches between delivery row and version as often as there are any, are decided by receipts, versions and leases as it finds them; it gives back exactly what it has claimed, and leaves a terminal receipt unless it failed |
| ProjectionStore.Store.ForwardEvent | apps/ops-sync/src/projection.ts:379-381 | the event counts as forwarded exactly if it was accepted, and as a duplicate if its receipt was terminal before |
| ProjectionStore.Store.SetIgnored | apps/ops-sync/src/projection.ts:72-77 | an entitlement event ends as ignored |
| ProjectionStore.Store.RouteLocked | apps/ops-sync/src/projection.ts:339-357 | receipt check and hand-off are a walk of the protocol; the outcome is decided by the receipt and by whether the event was accepted |
| ProjectionStore.Store.HandleRouted | apps/ops-sync/src/projection.ts:365-384 | one delivery of any other event is a complete run of the protocol with the outcome that its receipt, the lease and its acceptance decide, and leaves a terminal receipt unless it failed |
| Revocation.CrashSafe | apps/ops-sync/src/projection.ts:172-175 | any number of passes stopped after any statement, even within one project, followed by a complete pass revoke the same rows as one uninterrupted pass |
| Revocation.RemainingGrantsAreSupported | apps/ops-sync/src/projection.ts:153-159 | after a complete pass every live grant of a primary account on a covered project is supported by the project's active client or organization |
| Revocation.OnlyWithCause | apps/ops-sync/src/projection.ts:161-171 | a complete pass revokes a live row exactly if its account held an unsupported live grant on the same project, or it is a client folder of an inactive primary account |
| Revocation.RevokedExactly | apps/ops-sync/src/projection.ts:139-176 | the same in terms of the rows and of the mirrored projects alone: exactly those live rows are revoked that are on the project of a live grant of the same primary account which neither the active client nor, unless it requests service, the active organization of an active project supports for an active account, and the client folders of inactive primary accounts |
| Revocation.LiveGrantsAreSupported | apps/ops-sync/src/projection.ts:139-176 | and each live grant that is left is supported in that sense |
| Revocation.FullRun | apps/ops-sync/src/projection.ts:150-171 | from any state an interrupted pass can leave, a complete pass ends in the one target state |
| Revocation.TailRun | apps/ops-sync/src/projection.ts:161-169 | any prefix of the statements leaves each project untouched in its grants or finished |
| Revocation.DeliveryDatabase.StatementList | apps/ops-sync/src/projection.ts:149-171 | the three dependent tables before the grants of each project, and the client folders last |
| Revocation.DeliveryDatabase.ReconcileAccess | apps/ops-sync/src/projection.ts:139-176 | after k batches exactly the first 75 k statements have run, and the pass is finished exactly if that is all of them |
| Revocation.DeliveryDatabase.Batch | apps/ops-sync/src/projection.ts:172-175 | a batch runs its statements in order |
| SnapshotTheorems.LedgerExact | apps/employee-read-gateway/employee_read_gateway/snapshot_cache.py:126-230 | in every reachable state reserved is the sum of entry lengths and pending bytes and at most max_bytes, entries and pending at most max_entries, readers the sum over entries and the number of open leases and at most max_readers |
| SnapshotTheorems.StreamsAreSafe | apps/employee-read-gateway/employee_read_gateway/snapshot_cache.py:137-230 | an open lease's entry is resident with its stream open, an expired entry without readers is not resident, and every stream is closed at most once, exactly when its entry leaves |
| SnapshotTheorems.ReadersSeeTheCopy | apps/employee-read-gateway/employee_read_gateway/snapshot_cache.py:52-72 | over every interleaving of readers, timers and other calls, what a reader has been given is a prefix of bytes start..end of the committed copy, and it is all of them once it is as long as the range |
| SnapshotTheorems.ReadsOnlyOpenStreams | apps/employee-read-gateway/employee_read_gateway/snapshot_cache.py:57-61 | in every run a read takes place only for a lease that is handed over and not closed, whose entry is resident with its stream open |
| SnapshotTheorems.LeasesOnlyMoveOn | apps/employee-read-gateway/employee_read_gateway/snapshot_cache.py:52-81 | over any continuation of any run a copy keeps its bytes, a lease its entry, a handed one its range, and a closed one stays closed and is given nothing more |
| SnapshotTheorems.RunFollows | apps/employee-read-gateway/employee_read_gateway/snapshot_cache.py:84-230 | the same from any state that satisfies the invariant |
| SnapshotTheorems.RunStreams | apps/employee-read-gateway/employee_read_gateway/snapshot_cache.py:52-72 | from any sound state every run leaves every reader with a prefix of its range and at most the next piece of it in its hands |
| SnapshotTheorems.Drained | apps/employee-read-gateway/employee_read_gateway/snapshot_cache.py:208-230 | after close(), once leases and reservations have ended, nothing is resident or reserved |
| SnapshotTheorems.RunKeeps | apps/employee-read-gateway/employee_read_gateway/snapshot_cache.py:84-230 | the ledger invariant holds after any sequence of calls, timers and failed timer starts |
| SnapshotTheorems.ReserveIsMinimalLru | apps/employee-read-gateway/employee_read_gateway/snapshot_cache.py:146-169 | reserve keeps every leased entry and the most recently used of the idle ones that are not stale, evicts each of the others only while a limit was still exceeded, and succeeds exactly if then none is; a refusal leaves only leased entries |
| SnapshotTheorems.EvictionIsMinimal | apps/employee-read-gateway/employee_read_gateway/snapshot_cache.py:153-165 | the two loops evict the k oldest idle entries, the first q because of the quota and the rest because of the disk, and make room exactly if by then neither is exceeded |
| SnapshotTheorems.EvictOldestKeepsSuffix | apps/employee-read-gateway/employee_read_gateway/snapshot_cache.py:153-165 | evicting k entries leaves the idle ones from the k-th on and all leased ones, in their order |
| SnapshotTheorems.QuotaLoop | apps/employee-read-gateway/employee_read_gateway/snapshot_cache.py:153-157 | the quota loop ends, and each eviction happened over quota |
| SnapshotTheorems.DiskLoop | apps/employee-read-gateway/employee_read_gateway/snapshot_cache.py:161-165 | the disk loop ends, and each eviction happened while the last reported space was short |
| SnapshotTheorems.DropStaleIs | apps/employee-read-gateway/employee_read_gateway/snapshot_cache.py:150-152 | the sweep takes away exactly the stale entries without readers |
| SnapshotEffects.ExpireIs | apps/employee-read-gateway/employee_read_gateway/snapshot_cache.py:216-222 | an entry without readers that expires is no longer resident, its stream is closed once and its bytes are given back; one with readers is flagged; nothing else changes, and an unknown one changes nothing |
| SnapshotEffects.ReleaseIs | apps/employee-read-gateway/employee_read_gateway/snapshot_cache.py:208-214 | a reader of a closed lease is taken back once; with the last one an entry goes whose time is up or whose cache is closed, with its stream and its bytes |
| SnapshotEffects.CloseIs | apps/employee-read-gateway/employee_read_gateway/snapshot_cache.py:224-230 | closing the cache flags every entry, those without readers leave with their streams closed, and leases and reservations stay as they are |
| SnapshotEffects.RunLeavesOpen | apps/employee-read-gateway/employee_read_gateway/snapshot_cache.py:76-81 | over any run a lease is closed by nothing but its own close() |
| SnapshotCache.GatewayCache.constructor | apps/employee-read-gateway/employee_read_gateway/snapshot_cache.py:127-132 | an empty ledger that satisfies the invariant |
| SnapshotCache.GatewayCache.RemoveEntry | apps/employee-read-gateway/employee_read_gateway/snapshot_cache.py:137-144 | an entry with readers stays; otherwise it is no longer resident, its stream is closed once more and its bytes are given back |
| SnapshotCache.GatewayCache.FindIdle | apps/employee-read-gateway/employee_read_gateway/snapshot_cache.py:154-154 | the search finds the least recently used entry without readers |
| SnapshotCache.GatewayCache.SweepStale | apps/employee-read-gateway/employee_read_gateway/snapshot_cache.py:150-152 | the loop over a copy of the entries is the specified sweep |
| SnapshotCache.GatewayCache.EvictWhileOverQuota | apps/employee-read-gateway/employee_read_gateway/snapshot_cache.py:153-157 | the loop is the specified quota eviction |
| SnapshotCache.GatewayCache.EvictWhileDiskShort | apps/employee-read-gateway/employee_read_gateway/snapshot_cache.py:161-165 | the loop is the specified disk eviction, with a new disk query each time |
| SnapshotCache.GatewayCache.ReserveBytes | apps/employee-read-gateway/employee_read_gateway/snapshot_cache.py:146-169 | reserve as specified, refused when closed |
| SnapshotCache.GatewayCache.CommitCopy | apps/employee-read-gateway/employee_read_gateway/snapshot_cache.py:88-109 | a commit appends the entry to the resident ones exactly if the reservation is open, the cache is not closed and the timer starts, and otherwise changes nothing |
| SnapshotCache.GatewayCache.ReturnReservation | apps/employee-read-gateway/employee_read_gateway/snapshot_cache.py:111-117 | closing a reservation returns its bytes once |
| SnapshotCache.GatewayCache.StartLease | apps/employee-read-gateway/employee_read_gateway/snapshot_cache.py:184-206 | a failed timer start takes the reader back and removes the entry if it has become stale |
| SnapshotCache.GatewayCache.AcquireLease | apps/employee-read-gateway/employee_read_gateway/snapshot_cache.py:171-206 | the tests in their order, each with its own refusal, and on success one more lease on the whole copy, whose entry becomes the most recently used; a stale entry without readers leaves |
| SnapshotCache.GatewayCache.ReleaseReader | apps/employee-read-gateway/employee_read_gateway/snapshot_cache.py:208-214 | the reader is taken back once, and with the last one an entry that is expired, out of time or left over from a closed cache leaves |
| SnapshotCache.GatewayCache.EndLease | apps/employee-read-gateway/employee_read_gateway/snapshot_cache.py:76-81 | closing a lease a second time changes nothing |
| SnapshotCache.GatewayCache.ExpireEntry | apps/employee-read-gateway/employee_read_gateway/snapshot_cache.py:216-222 | an entry without readers is gone, its stream closed once and its bytes given back; one with readers is flagged with everything else as it was |
| SnapshotCache.GatewayCache.Shutdown | apps/employee-read-gateway/employee_read_gateway/snapshot_cache.py:224-230 | the cache is closed, every entry is expired, and those without readers are gone with their streams closed |
| SnapshotCache.GatewayCache.ReadPiece | apps/employee-read-gateway/employee_read_gateway/snapshot_cache.py:57-61 | one read under the lease lock, of at most a MiB and of what is still missing, as specified |
| SnapshotCache.GatewayCache.YieldPiece | apps/employee-read-gateway/employee_read_gateway/snapshot_cache.py:65-72 | the second test: a chunk that was read is handed on unless the lease has been closed meanwhile |
| SnapshotCache.GatewayCache.Perform | apps/employee-read-gateway/employee_read_gateway/snapshot_cache.py:76-230 | any operation of any thread or timer is the one step of the run |
| SnapshotCache.GatewayCache.Others | apps/employee-read-gateway/employee_read_gateway/snapshot_cache.py:76-230 | what others do in between is a run, keeps everything sound, and takes nothing back |
| SnapshotCache.GatewayCache.Chunks | apps/employee-read-gateway/employee_read_gateway/snapshot_cache.py:52-74 | while other threads and timers do anything before and after each read, what is yielded is a prefix of bytes start..end of the copy, all of them if the loop completes, nothing for a lease that was closed before, and the lease is given back whatever ends the loop; it completes if nothing cancels it, nobody closes the lease and each read returns something |
| SnapshotCache.GatewayCache.ServeContent | apps/employee-read-gateway/employee_read_gateway/core.py:345-370 | a lease is taken exactly if the entry is resident, fresh and the one asked for and there is a reader and a timer for it; whatever others do until the reply, the lease goes to the reply, narrowed to the range and with the announced length, exactly if the source still matches, the deadline holds and the range lies in the copy, and back to the cache otherwise; an entry whose source no longer matches is gone, or expired and kept for those who still read it |
| SnapshotCache.GatewayCache.PrepareSnapshot | apps/employee-read-gateway/employee_read_gateway/core.py:406-433 | whatever happens and whatever others do meanwhile, no reservation stays behind; a file over the limit is refused outright; an entry with exactly the source is made if room can be reserved, the source keeps its length and identity, every read is in time and returns something, the timer starts and the cache is not closed meanwhile; an entry that is not delivered in time is no longer resident at the end and its stream is closed |
| SnapshotCache.GatewayCache.CopySource | apps/employee-read-gateway/employee_read_gateway/core.py:414-424 | whatever others do between two reads, a copy counts as whole only if it is the source and has the announced length, and does if it has and every read is in time and returns something |
| DirectoryLedger.LedgerExact | apps/employee-read-gateway/employee_read_gateway/directory_pages.py:60-156 | after any interleaving reserved is the sum of cached costs and of what builds have reserved, within max_bytes and max_caches, and the lease map has exactly the cached ids, each counting its holders |
| DirectoryLedger.HeldThroughout | apps/employee-read-gateway/employee_read_gateway/directory_pages.py:60-79 | over any run with fewer releases of an id than it has holders, the listing stays cached and unchanged |
| DirectoryLedger.HeldIsCached | apps/employee-read-gateway/employee_read_gateway/directory_pages.py:60-74 | whoever holds a listing finds it cached as it was published |
| DirectoryLedger.StepsRespectHolders | apps/employee-read-gateway/employee_read_gateway/directory_pages.py:60-190 | no step takes a listing from a holder but its own release, and no published listing is ever replaced |
| DirectoryLedger.ListingsStay | apps/employee-read-gateway/employee_read_gateway/directory_pages.py:140-148 | over any run what has been published under an id stays published under it, whether or not it is still cached |
| DirectoryLedger.MeanwhileSpares | apps/employee-read-gateway/employee_read_gateway/directory_pages.py:60-190 | whatever other requests do with builds, leases and ids of their own, a request keeps its slot, what it has reserved, its leases and its unused id |
| DirectoryLedger.RefusalMeansInUse | apps/employee-read-gateway/employee_read_gateway/directory_pages.py:121-129 | a build is refused room only when every cached listing is in use, and its end returns all it had reserved |
| DirectoryLedger.AtRest | apps/employee-read-gateway/employee_read_gateway/directory_pages.py:149-156 | without builds the reservation is what the cached listings cost |
| DirectoryLedger.PruneKeeps | apps/employee-read-gateway/employee_read_gateway/directory_pages.py:60-65 | pruning keeps the ledger exact and every held listing |
| DirectoryLedger.EvictForBytesKeeps | apps/employee-read-gateway/employee_read_gateway/directory_pages.py:123-125 | so does eviction for bytes, which stops short only when all listings are held |
| DirectoryLedger.EvictForCountKeeps | apps/employee-read-gateway/employee_read_gateway/directory_pages.py:142-144 | so does eviction for the number of listings |
| DirectoryRoom.RoomIsMade | apps/employee-read-gateway/employee_read_gateway/directory_pages.py:121-129 | room for a name can be made exactly if what builds have reserved and what the listings in use cost leave it, whatever else is cached |
| DirectoryRoom.PlaceIsMade | apps/employee-read-gateway/employee_read_gateway/directory_pages.py:140-144 | a place for a listing can be made exactly if fewer than max_caches are in use |
| DirectoryRoom.PruneIs | apps/employee-read-gateway/employee_read_gateway/directory_pages.py:60-65 | pruning leaves exactly the listings that have not expired or are held, in their order |
| DirectoryRoom.EvictionForBytesIs | apps/employee-read-gateway/employee_read_gateway/directory_pages.py:123-125 | the listings evicted for bytes are the first ones nobody holds, in the order of the cache, and before each of them the reservation was still too large |
| DirectoryRoom.EvictionForCountIs | apps/employee-read-gateway/employee_read_gateway/directory_pages.py:142-144 | the same for the number of listings |
| DirectoryPages.CompleteWalk | apps/employee-read-gateway/employee_read_gateway/directory_pages.py:192-226 | after any history a build publishes what its scan has kept; along any run from then on, following the cursors without being denied returns exactly the kept entries, each once, in strictly increasing byte order of their names, in ceil(n/200) pages, one if there are none |
| DirectoryPages.SelectInvertsCursor | apps/employee-read-gateway/employee_read_gateway/directory_pages.py:158-190 | a token selects a listing and an offset exactly if it is the cursor issued for them, unexpired when it is tested, the listing is cached and either held or unexpired at the second clock reading, and the offset begins one of its later pages |
| DirectoryPages.SelectedLeases | apps/employee-read-gateway/employee_read_gateway/directory_pages.py:180-188 | a selection adds one holder to the listing it returns |
| DirectoryPages.SortByName | apps/employee-read-gateway/employee_read_gateway/directory_pages.py:134-134 | the entries in strict byte order of their names, none lost and none added |
| DirectoryPages.Directories.constructor | apps/employee-read-gateway/employee_read_gateway/directory_pages.py:33-45 | an empty ledger with all slots free |
| DirectoryPages.Directories.PruneCaches | apps/employee-read-gateway/employee_read_gateway/directory_pages.py:60-65 | the loop drops exactly the expired listings nobody holds, and keeps the others in their order |
| DirectoryPages.Directories.Evict | apps/employee-read-gateway/employee_read_gateway/directory_pages.py:67-74 | the first listing nobody holds leaves; false only if there is none |
| DirectoryPages.Directories.TakeSlot | apps/employee-read-gateway/employee_read_gateway/directory_pages.py:83-84 | the first free slot, or none if all builds are taken |
| DirectoryPages.Directories.ChargeName | apps/employee-read-gateway/employee_read_gateway/directory_pages.py:121-129 | room for a name is reserved exactly if it can be made |
| DirectoryPages.Directories.PublishListing | apps/employee-read-gateway/employee_read_gateway/directory_pages.py:140-148 | the cache takes over what the build reserved exactly if a place can be made |
| DirectoryPages.Directories.SelectListing | apps/employee-read-gateway/employee_read_gateway/directory_pages.py:164-190 | the tests on the token and on the cache decide as specified, and a hit has one more lease and is the last of the listings that are left |
| DirectoryPages.Directories.ReleaseLease | apps/employee-read-gateway/employee_read_gateway/directory_pages.py:76-79 | one lease less, and then a pruning |
| DirectoryPages.Directories.Others | apps/employee-read-gateway/employee_read_gateway/directory_pages.py:60-190 | what other requests do in between leaves the ledger exact and this request what it has taken |
| DirectoryPages.Directories.Scan | apps/employee-read-gateway/employee_read_gateway/directory_pages.py:95-130 | whatever other requests do before each entry, the reservation is always the charge of the names kept so far; the scan ends at the first entry at which the request is cancelled, there are too many, or a name has no room beside the builds and the listings in use, and with the reason for that, and otherwise has looked at every entry |
| DirectoryPages.Directories.Finish | apps/employee-read-gateway/employee_read_gateway/directory_pages.py:133-148 | a listing is published exactly if the request is not cancelled, the directory is unchanged and there is a place, sorted, complete and with its expiry; otherwise the reason is named |
| DirectoryPages.Directories.Build | apps/employee-read-gateway/employee_read_gateway/directory_pages.py:81-156 | whatever other requests do before each section, a listing is built exactly if a slot is free, nothing is cancelled, the scan is not too long, every name kept has room, the directory is unchanged and there is a place, with the refusal named for each other case; it is sorted, complete, held by the build and good for ttl from the end of the scan on; what is not handed over goes back, and then the slot |
| DirectoryPages.Directories.Lookup | apps/employee-read-gateway/employee_read_gateway/directory_pages.py:219-221 | while a request holds its lease, the cache still has the listing as it was published, whatever others do |
| DirectoryPages.Directories.Serve | apps/employee-read-gateway/employee_read_gateway/directory_pages.py:209-226 | with the lease in hand, the right page and cursor exactly if nothing has cancelled the request, the directory is unchanged and the listing unexpired; the lease goes back whatever happens |
| DirectoryPages.Directories.ListPage | apps/employee-read-gateway/employee_read_gateway/directory_pages.py:192-226 | whatever other requests do meanwhile, a further page is answered exactly as its cursor selects; a first page is that of the listing built for it, exactly if one is built, the directory is still the same, nothing is cancelled and the listing has not expired, with the refusal named for each other case; no lease or slot stays behind |
| ReplayProtection.AtMostOnce | apps/employee-read-gateway/employee_read_gateway/core.py:175-187 | if the clock never goes back, no message is accepted twice in a run of any length, although rows are deleted at expiry, and the table never exceeds its capacity |
| ReplayProtection.AcceptedExactly | apps/employee-read-gateway/employee_read_gateway/core.py:175-187 | after any run, with any clock, a message is accepted exactly if it passes the shape and time tests, there is room, and every earlier acceptance under its key and nonce was followed by one at or after its expiry or has expired now |
| ReplayProtection.ReplayNeedsClockSetBack | apps/employee-read-gateway/employee_read_gateway/core.py:251-273 | whatever the clock does, a second acceptance is preceded by one at or after the message's expiry and itself happens before it |
| ReplayProtection.SetBackClockReplays | apps/employee-read-gateway/employee_read_gateway/core.py:179-179 | with a clock that is set back by fifteen seconds a well-formed message is accepted twice |
| ReplayProtection.SetBackReplays | apps/employee-read-gateway/employee_read_gateway/core.py:179-179 | every message is accepted again whenever the clock has been past its expiry at another acceptance and is set back before it |
| ReplayProtection.RunKeeps | apps/employee-read-gateway/employee_read_gateway/core.py:175-187 | every accepted message is still on record or has been outlived, and every row on record is that of an acceptance that has not |
| ReplayProtection.ReplayStore.Claim | apps/employee-read-gateway/employee_read_gateway/core.py:175-187 | one transaction: expired rows go, then capacity, then uniqueness; a refusal leaves the table as it was |
| ReplayProtection.ReplayStore.Authenticate | apps/employee-read-gateway/employee_read_gateway/core.py:233-298 | a claim is made exactly for messages of the right shape that pass the time tests |
| GatewayPaths.PathPartsAreBelow | apps/employee-read-gateway/employee_read_gateway/core.py:54-65 | a path is accepted exactly when it spells, within the limits, names that are neither empty nor "." nor ".." and hold no separator, percent sign, colon or unprintable character, and as those |
| GatewayPaths.NamesAreSingle | apps/employee-read-gateway/employee_read_gateway/directory_pages.py:99-101 | a directory entry is listed only if its name is one such name |
| ZipInventory.InspectArchive | scripts/truenas/incoming-zip-inventory.py:172-270 | a listing is reported exactly when the specification allows one, and then that one: a file is in it exactly if some member that is no directory has its path and its size, a folder exactly if it is a directory member or stands above a member, in the order of the written paths; a rejection is blamed on the missing end record, the location, the first record that cannot be read or added, or the size of the listing; limits must be positive |
| ZipInventory.ReportOn | scripts/truenas/incoming-zip-inventory.py:186-270 | the same for a directory that has been found |
| ZipInventory.InspectDirectory | scripts/truenas/incoming-zip-inventory.py:186-259 | reading and adding record after record, with the directory ending where the last record ends |
| ZipInventory.InspectIs | scripts/truenas/incoming-zip-inventory.py:186-259 | reading and adding in turn accepts exactly if all records read, end where they should, and build a tree |
| ZipInventory.DirectoryIs | scripts/truenas/incoming-zip-inventory.py:186-259 | a directory is accepted exactly if its members satisfy the order-free condition, and the tree is then theirs |
| ZipInventory.ListsExactly | scripts/truenas/incoming-zip-inventory.py:186-270 | a directory lists certain members exactly if it is what a writer writes for them and they are presentable |
| ZipInventory.WrittenArchive | scripts/truenas/incoming-zip-inventory.py:63-270 | an archive of acceptable members, with or without ZIP64 records, whatever precedes its directory, has the listing of those members |
| ZipInventory.WriteThenInspect | scripts/truenas/incoming-zip-inventory.py:63-270 | the bytes of the reference writer, members, directory and end records with a comment, are inspected as the listing of those members, each file with the uncompressed size that was written for it; without a comment unconditionally |
| ZipInventory.ListingIsUnique | scripts/truenas/incoming-zip-inventory.py:260-264 | the members have only one sorted listing |
| ZipInventory.RowsAreListing | scripts/truenas/incoming-zip-inventory.py:226-264 | the folders and files of the tree, sorted, are the listing of its members in that sense |
| ZipInventory.AcceptedIsPaidFor | scripts/truenas/incoming-zip-inventory.py:226-259 | the limits in terms of the listing: members are accepted exactly if their paths differ, no file stands above another member, and their listing has at most max_entries items whose paths and names, with 24 bytes for each folder and 32 for each file, come to at most max_metadata_bytes |
| ZipInventory.ListsMovedSize | scripts/truenas/incoming-zip-inventory.py:253-254 | a file whose size was moved to the ZIP64 block is listed with the size that was written there |
| ZipTree.BuildIs | scripts/truenas/incoming-zip-inventory.py:222-257 | the incremental builder accepts exactly when paths are distinct, no file is above another member, and distinct files and folders and their charge fit; its tree is that of the members |
| ZipTree.OrderIsIrrelevant | scripts/truenas/incoming-zip-inventory.py:186-264 | two orders of the same members are both accepted or both rejected, with the same tree |
| ZipTree.TreeIsClosed | scripts/truenas/incoming-zip-inventory.py:226-257 | every item below the root has its parent folder, and no path is both file and folder |
| ZipTree.AddIs | scripts/truenas/incoming-zip-inventory.py:222-257 | adding one member to a built tree succeeds exactly if the longer list is acceptable |
| ZipTree.AddFoldersIs | scripts/truenas/incoming-zip-inventory.py:226-236 | adding the ancestors one by one comes to adding them as a set |
| ZipTree.AddMember | scripts/truenas/incoming-zip-inventory.py:222-257 | the loop over the ancestors and what follows it are the specified step, with the same error |
| ZipPaths.NormalPathIsSafe | scripts/truenas/incoming-zip-inventory.py:151-169 | a name is accepted exactly when it spells a safe relative path within the depth, and as that path |
| ZipDirectory.FindEndRecord | scripts/truenas/incoming-zip-inventory.py:69-77 | the backward search ends, and finds the last end record whose comment reaches to the end |
| ZipDirectory.DirectoryLocation | scripts/truenas/incoming-zip-inventory.py:63-110 | not_zip exactly if the tail has no end record; otherwise the last one decides |
| ZipDirectory.LocateExact | scripts/truenas/incoming-zip-inventory.py:79-110 | a location is accepted exactly if the end record, or the ZIP64 records it sends to, describe it, within the limits and wholly before them |
| ZipDirectory.Zip64Exact | scripts/truenas/incoming-zip-inventory.py:87-102 | the ZIP64 location is read exactly if such a record and its locator stand just ahead of the end record |
| ZipDirectory.Locate | scripts/truenas/incoming-zip-inventory.py:104-110 | what is located is within the limits and ends before the end record |
| ZipDirectory.WrittenLocation | scripts/truenas/incoming-zip-inventory.py:63-110 | round trip: unless the comment hides a later end record, the reader finds the offset, size and count that were written |
| ZipDirectory.WrittenDescription | scripts/truenas/incoming-zip-inventory.py:82-102 | the records of a written archive describe its directory, with ZIP64 forced, needed or absent |
| ZipDirectory.EndRecordIsEnd | scripts/truenas/incoming-zip-inventory.py:71-74 | a written end record with its comment reads back |
| ZipDirectory.SignaturesDoNotOverlap | scripts/truenas/incoming-zip-inventory.py:75-75 | a search that ends where one signature begins misses none |
| ZipRecords.Zip64Values | scripts/truenas/incoming-zip-inventory.py:113-148 | the two loops resolve the sizes as specified, with the same errors |
| ZipRecords.ScanExtra | scripts/truenas/incoming-zip-inventory.py:125-137 | the loop finds the first ZIP64 block |
| ZipRecords.ReadRequired | scripts/truenas/incoming-zip-inventory.py:138-145 | the loop reads the values in the order of the sentinels |
| ZipRecords.EveryShape | scripts/truenas/incoming-zip-inventory.py:125-137 | every extra field has one of three shapes, which decides between a value, zip64_invalid and malformed |
| ZipRecords.ScanFinds | scripts/truenas/incoming-zip-inventory.py:125-137 | blocks of other kinds are skipped and the first ZIP64 block is found, whatever follows |
| ZipRecords.ScanMisses | scripts/truenas/incoming-zip-inventory.py:136-137 | without a ZIP64 block the field is zip64_invalid |
| ZipRecords.ScanOverruns | scripts/truenas/incoming-zip-inventory.py:130-131 | a block that runs over the end is malformed |
| ZipRecords.NeedsFit | scripts/truenas/incoming-zip-inventory.py:140-143 | values are missing exactly if the block is shorter than the fields that need one |
| ZipRecords.WrittenSizes | scripts/truenas/incoming-zip-inventory.py:113-148 | round trip: whichever fields were moved to the extra field, the reader gets the actual sizes, or multi_disk |
| ZipRecords.ReadIsWritten | scripts/truenas/incoming-zip-inventory.py:187-205 | whatever is read as a record is one that a writer could have written there |
| ZipRecords.WrittenHeader | scripts/truenas/incoming-zip-inventory.py:187-205 | a written record reads back, and the next one follows it |
| ZipRecords.ReadMemberIs | scripts/truenas/incoming-zip-inventory.py:206-221 | a member passes its own checks exactly if it is plain, readable, on the first disk, and spells a safe path |
| ZipRecords.DirectoryExact | scripts/truenas/incoming-zip-inventory.py:186-259 | the bytes that read as a directory of given members are exactly those that can be written for them |
| ZipRecords.WrittenDirectory | scripts/truenas/incoming-zip-inventory.py:186-259 | round trip for a whole directory |
| Sorting.SortSet | scripts/truenas/incoming-zip-inventory.py:260-264 | all elements, in strictly increasing order of their keys |
| Receipts.Pages | scripts/truenas/incoming-zip-receipts.py:12-37 | a ready inventory becomes greedily filled pages that are its entries in order, numbered from 0, only the last complete; oversized_entry only if no paging exists at all; anything else becomes one notice with a safe reason |
| Receipts.PagedMeans | scripts/truenas/incoming-zip-receipts.py:22-37 | receipts are made exactly if some order-preserving paging passes the per-page test, and then with the fewest pages |
| Receipts.GreedyIsOptimal | scripts/truenas/incoming-zip-receipts.py:24-35 | no paging under the same test has fewer pages, although page numbers grow in digits |
| Receipts.StaysAhead | scripts/truenas/incoming-zip-receipts.py:24-35 | after as many pages, greedy filling has covered at least as many entries as any other paging |
| Receipts.NoPaging | scripts/truenas/incoming-zip-receipts.py:26-34 | an entry that does not fit where greedy filling has come to fits in no paging |
| Receipts.SentPagesFit | scripts/truenas/incoming-zip-receipts.py:25-36 | every page as sent, the unchecked complete one included, has at most 250 entries and fits PAGE_BYTES |
| Receipts.SentWithinLimits | scripts/truenas/incoming-zip-receipts.py:22-37 | all pages that are sent are within 250 entries and PAGE_BYTES exactly if the inventory is not empty or the proof leaves room for the page that is never tested |
| Receipts.PageTextSize | scripts/truenas/incoming-zip-receipts.py:23-26 | the size that is tested is the length of the JSON text of the page, number, flag and joined entries written out |
| Receipts.SentTextsFit | scripts/truenas/incoming-zip-receipts.py:22-37 | the text of every page that is sent for an inventory with entries is at most 48 KiB long, with 1 to 250 entries |
| PointBudget.AlwaysBounded | apps/viewer/public/pointcloud-performance.js:177-301 | after any sequence of calls the live budget is between the root minimum and the target, auto says that it is below, a probe is above its base, the delay is one of five values, and no full window is left undecided |
| PointBudget.SampleBounded | apps/viewer/public/pointcloud-performance.js:206-299 | an active finite sample leaves the budget at or above its floor |
| PointBudget.DecideBounded | apps/viewer/public/pointcloud-performance.js:233-297 | so does the decision at the end of a window |
| PointBudget.ReduceLowers | apps/viewer/public/pointcloud-performance.js:257-269 | a reduction strictly lowers the budget but not below the floor: to the base of a running probe, or to at most three quarters and at least about half |
| PointBudget.ProbeRaises | apps/viewer/public/pointcloud-performance.js:270-275 | a probe strictly raises the budget, by at most 15 or 50 per cent and to at most the target, and remembers where it came from |
| PointBudget.ProbesBackOff | apps/viewer/public/pointcloud-performance.js:247-275 | with times that do not go back, after k >= 1 rollbacks in a row the next probe starts at least min(60000, 4000 * 2^k) ms after the previous one, and never less than two seconds after it |
| PointBudget.TraceTimed | apps/viewer/public/pointcloud-performance.js:222-275 | health is never counted for longer than has passed since the last change, and the delay is that of the number of rollbacks |
| PointBudget.BackoffIs | apps/viewer/public/pointcloud-performance.js:262-262 | the delays are 4, 8, 16, 32 and 60 seconds |
| PointRecovery.HealthReachesGoal | apps/viewer/public/pointcloud-performance.js:222-275 | from any state with a healthy open window, frames of at most 44 ms never lower the budget, and n times 61 seconds of them, in a scene that would fill a budget of that size, raise it to the goal or to 1.15^n of where it was |
| PointRecovery.DecisionClimbs | apps/viewer/public/pointcloud-performance.js:240-275 | a decision on a healthy window starts a probe of at least 15 per cent, or the health since the last raise is less than the longest delay |
| PointOverload.OverloadDescends | apps/viewer/public/pointcloud-performance.js:257-269 | however frames come, n overloaded windows in a row leave the budget at the floor or at most at (3/4)^(n-1) of where it was |
| PointOverload.OverloadedFrame | apps/viewer/public/pointcloud-performance.js:257-269 | each overloaded window above the floor strictly lowers the budget |
| PointOverload.DecisionsExactly | apps/viewer/public/pointcloud-performance.js:222-238 | exactly when decisions are made, from the frame times alone and for any n: at least n of them if and only if there are n stretches that do not overlap, each of eight frames or more that take a second or more, a second each at most, and none of which is longer than a second after one that was not |
| PointOverload.OverloadLowersExactly | apps/viewer/public/pointcloud-performance.js:222-269 | the exact condition for sustained overload to lower a budget above its floor: it does if and only if some stretch of the slow frames is undisturbed; otherwise nothing is decided and the budget stays as it is |
| PointOverload.OverloadReachesFloor | apps/viewer/public/pointcloud-performance.js:222-269 | from any state, under frames that all take more than 45 ms however long they are, m + 1 stretches of frames that do not overlap leave the budget at the floor or at most at (3/4)^m of where it was; one more, counted from the target, if the open window had begun with frames that were not slow |
| PointOverload.SlowStretch | apps/viewer/public/pointcloud-performance.js:222-233 | 23 slow frames in which no pause begins are such a stretch |
| PointOverload.SlowFramesReachFloor | apps/viewer/public/pointcloud-performance.js:222-269 | so logarithmically many slow frames bring the floor, and 23 more for each pause that begins among them |
| PointOverload.StutterHidesOverload | apps/viewer/public/pointcloud-performance.js:222-226 | if every other frame takes longer than a second there is no such stretch: no decision is ever made and the budget stays as it is |
| PointOverload.StutterExample | apps/viewer/public/pointcloud-performance.js:222-226 | a fresh controller asked for a million points, and any number of frames of alternately 1100 and 100 ms: nothing is ever decided |
| PointOverload.StutterWrittenOut | apps/viewer/public/pointcloud-performance.js:222-226 | the same with ten frames written out |
| PointBudget.AdaptivePointBudget.constructor | apps/viewer/public/pointcloud-performance.js:177-180 | the controller starts at its target |
| PointBudget.AdaptivePointBudget.ChangeTarget | apps/viewer/public/pointcloud-performance.js:195-205 | a valid target is rounded and restarts everything, an invalid one changes nothing |
| PointBudget.AdaptivePointBudget.CountFrame | apps/viewer/public/pointcloud-performance.js:222-226 | the first frame over a second clears the window, later ones count for a second |
| PointBudget.AdaptivePointBudget.EndWindow | apps/viewer/public/pointcloud-performance.js:233-297 | the decision as specified |
| PointBudget.AdaptivePointBudget.TakeSample | apps/viewer/public/pointcloud-performance.js:206-299 | one sample as specified, returning the live budget |
| AccessHold.OneWait | apps/viewer/public/pointcloud-access.js:48-58 | over every interleaving at most one wait is open, access was asked for once per wait, and a timer runs exactly for the open wait |
| AccessHold.BoundedRetries | apps/viewer/public/pointcloud-access.js:66-80 | each call makes at most two fetches, the second only for a scoped request that was not aborted before, and after a renewal since it was sent |
| AccessHold.WaitsOpenOnlyWhenNeeded | apps/viewer/public/pointcloud-access.js:70-75 | every wait of every run was opened by a denial of a scoped request that was not aborted and was sent under the generation of that moment, while nothing was pending and the page was not disposed |
| AccessHold.WaitersSeeTheOutcome | apps/viewer/public/pointcloud-access.js:75-79 | in every reachable state a request that was given an outcome was given that of the wait it joined, which never changes; it is fetched again exactly if access was allowed and the page was still there, and does not return without its outcome |
| AccessHold.DeniedIsHeld | apps/viewer/public/pointcloud-access.js:48-76 | over every run a denied response to a held request that no renewal has overtaken makes it wait for the one open wait, with access asked for exactly if none was open |
| AccessHold.DeniedIsRetried | apps/viewer/public/pointcloud-access.js:72-79 | after a renewal since it was sent it is fetched again at once, at the same file under the current directory |
| AccessHold.RenewalRetries | apps/viewer/public/pointcloud-access.js:83-92 | a renewal of this origin ends the wait, and each waiting request is fetched once more, at the same file under the directory of the renewal |
| AccessHold.EndReturnsTheDenial | apps/viewer/public/pointcloud-access.js:83-97 | a renewal of another origin, the notice that access is unavailable, the timer, or dispose ends the wait, and each waiting request gets its denial |
| AccessHold.ResolvedForGood | apps/viewer/public/pointcloud-access.js:31-39 | a wait is resolved once |
| AccessHold.NobodyIsStuck | apps/viewer/public/pointcloud-access.js:31-39 | when no wait is pending every waiter can go on |
| AccessHold.FetchesStayOnTheFile | apps/viewer/public/pointcloud-access.js:41-46 | over every run each address a held request was fetched at is the same file, under the directory that was current at that time, and every other request is fetched once, where it was asked for |
| AccessHold.RunKeeps | apps/viewer/public/pointcloud-access.js:31-99 | the invariant of gate and requests holds after any sequence of steps |
| AccessHold.PointCloudAccess.constructor | apps/viewer/public/pointcloud-access.js:15-19 | nothing pending, generation zero |
| AccessHold.PointCloudAccess.EndWait | apps/viewer/public/pointcloud-access.js:31-39 | the pending wait is resolved, its timer stopped, and one callback called |
| AccessHold.PointCloudAccess.WaitForAccess | apps/viewer/public/pointcloud-access.js:48-56 | the pending wait is joined, or one is opened and access asked for |
| AccessHold.PointCloudAccess.Fetch | apps/viewer/public/pointcloud-access.js:66-69 | only GET requests below the directory are held and redirected |
| AccessHold.PointCloudAccess.Receive | apps/viewer/public/pointcloud-access.js:69-75 | the first response is returned, retried under a newer generation, or made to wait |
| AccessHold.PointCloudAccess.Resume | apps/viewer/public/pointcloud-access.js:76-77 | after its wait a request is retried or given the denial |
| AccessHold.PointCloudAccess.Renewed | apps/viewer/public/pointcloud-access.js:83-92 | a renewal for another origin ends the wait as denied without a new generation |
| AccessHold.PointCloudAccess.Close | apps/viewer/public/pointcloud-access.js:94-97 | dispose ends the wait as denied |
| NativeStaffAccess.CertificatesAreTrue | apps/ops-sync/src/native-staff-access.ts:56-70 | over every run a certificate was issued by the attempt that then held the unexpired lease for its generation; that attempt had read the remote group at earlier actions of the run, which then admitted exactly the members of the generation's cohort, and if it wrote the group it had read it before with the same other fields |
| NativeStaffAccess.RunTraced | apps/ops-sync/src/access-group.ts:123-158 | in every reachable state the groups an attempt works with are the remote group as it stood at its own earlier reads, and each request under way was sent by a current attempt |
| NativeStaffAccess.CertifiedStays | apps/ops-sync/src/native-staff-access.ts:64-69 | over any continuation applied_generation does not go back and no certificate is withdrawn |
| NativeStaffAccess.SupersededIsHarmless | apps/ops-sync/src/native-staff-access.ts:71-78 | an attempt that lost its lease neither completes nor clears another's lease |
| NativeStaffAccess.LeasesAreExclusive | apps/ops-sync/src/native-staff-access.ts:44-49 | over any continuation in which its holder does not act, a lease stays with its holder until it runs out |
| NativeStaffAccess.RequestsAreAuthorized | apps/ops-sync/src/access-group.ts:18-34 | over every run a request to the remote group is under way only for an attempt that was current, for the current generation, when it was sent |
| NativeStaffAccess.RunKeeps | apps/ops-sync/src/native-staff-access.ts:27-79 | the invariant of control row, attempts and certificates holds after any sequence of actions |
| NativeStaffAccess.LeftAloneCertifies | apps/ops-sync/src/native-staff-access.ts:27-79 | from every reachable state with the row enabled, its lease free or run out, a valid cohort and a readable group, a new attempt that is left alone and answered well ends after at most twelve statements with the cohort's generation certified and the group admitting exactly the cohort, unchanged if it did before |
| NativeStaffAccess.Reconciler.ClaimLease | apps/ops-sync/src/native-staff-access.ts:43-49 | the claim succeeds exactly if enabled, of the expected generation, and free or expired |
| NativeStaffAccess.Reconciler.CompleteAttempt | apps/ops-sync/src/native-staff-access.ts:64-69 | completion succeeds exactly for the current attempt |
| NativeStaffAccess.Reconciler.GiveUp | apps/ops-sync/src/native-staff-access.ts:75-76 | only the own lease is cleared |
| NativeStaffAccess.Reconciler.Send | apps/ops-sync/src/access-group.ts:21-24 | a request under way: others act, and what it writes may land whatever the answer |
| NativeStaffAccess.Reconciler.BoundedFetch | apps/ops-sync/src/access-group.ts:18-34 | whatever others change before and during each try, at most three requests, each sent while current, a further one only after a retryable answer; it succeeds exactly if the last one sent is answered well, and ends early only where one is answered otherwise or the attempt is not current |
| NativeStaffAccess.FetchSucceeds | apps/ops-sync/src/access-group.ts:18-34 | with a good answer on some of three tries after retryable ones only, and the attempt current until then, boundedFetch succeeds at that answer |
| NativeStaffAccess.Reconciler.ApplyManagedEmails | apps/ops-sync/src/access-group.ts:123-158 | whatever others change in between, success means that the last read found the group to admit exactly the addresses; if it was written, an earlier read had found it configured, readable and different, with the same other fields; nothing is written without such a read; and if the attempt stays current, each request gets a good answer within three tries after retryable ones, the write has landed and nobody interferes, it does succeed, the group admits exactly the addresses, and it was written exactly if it did not before |
| NativeStaffAccess.Reconciler.BringGroup | apps/ops-sync/src/native-staff-access.ts:57-63 | the same under a valid cohort, with the attempt current before and after |
| NativeStaffAccess.Reconciler.Reconcile | apps/ops-sync/src/native-staff-access.ts:27-79 | whatever others change before each statement: disabled and busy change nothing, pending gives the own lease back and nothing else, applied certifies the generation it began with, as its current holder, after the group was read to admit exactly the cohort; and an attempt with a valid cohort and a readable group that nothing stands in the way of is applied, with its generation certified and the group brought to the cohort |
| Sorting.SortedAlike | apps/ops-sync/src/access-group.ts:129-130 | two lists are the same after sorting exactly if they hold the same strings equally often |
| RateLimiter.ExactBound | apps/viewer/server/auth.js:103-122 | for all histories in which the cleanup runs every five minutes and at most a given number of milliseconds late, at least one, any interval of the window's length holds at most 2 max unrestricted calls of a key if and only if max is at least 1 and the window is at most ten minutes, or max is 1 and the window at most 1200001 ms |
| RateLimiter.SlidingWindow | apps/viewer/server/auth.js:103-122 | the bound for windows of at most ten minutes, whatever other keys do and whatever the cleanup deletes |
| RateLimiter.SingleBound | apps/viewer/server/auth.js:117-122 | the bound for one call per window and longer windows |
| RateLimiter.Leak | apps/viewer/server/auth.js:117-122 | for every other policy with max of at least 1, a history that exceeds the bound although no cleanup is more than a millisecond late |
| RateLimiter.RefusedOnlyBeyondMax | apps/viewer/server/auth.js:105-114 | over every history and for every policy a call is refused only if at least max calls of its key were let through in the last windowMs milliseconds |
| RateLimiter.RunKeeps | apps/viewer/server/auth.js:105-122 | windows are more than their length apart, each lets at most max calls through, and an entry is gone only when its window is over |
| RateLimiter.Limiter.RateLimited | apps/viewer/server/auth.js:105-114 | one call changes only its key's window and is refused exactly beyond max |
| RateLimiter.Limiter.Cleanup | apps/viewer/server/auth.js:117-122 | exactly the windows older than ten minutes are forgotten |
| ShareToken.TokensApart | apps/viewer/server/auth.js:86-94 | two valid inputs are framed alike exactly if all four parts agree |
| ShareToken.FramesApart | apps/viewer/server/auth.js:89-89 | the framing is injective on lists of any length |
| ShareToken.PartsApart | apps/viewer/server/auth.js:89-89 | a length-prefixed part can be told from what follows it |

## Left out

Projection protocol

- Two overlapping attempts at one event, and a write that lands after its lease has lapsed: the code does not fence them, so they are assumptions of the step relation.
- Connector proofs, id mapping and the division identity (files outside the core): steps that may fail.
- `last_error` texts, `recordEventFailure` and `integration_reconciliation` timestamps: they decide nothing in the protocol.
- ProjectionTheorems.Convergence: rows of operations, tasks and their assignments are not tracked, because project events cascade into them and their keys are shared; business activity rows likewise, and full snapshot imports, which write the same tables.
- ProjectionTheorems.SettledPortalRow: of the delivery database only the row of the entity itself is tracked, not the client names copied into projects.
- The refusal of entitlement events from secondary sources, which happens before the protocol begins.
- Revocation times: a row is revoked or not.
- ProjectionTrail.RecordedOnlyAfterRevocation: the protocol says when batches run; what they do to the delivery database is in `Revocation`, whose rows are not among the tables of the protocol.

Employee read gateway

- Cryptography: a token or message verifies exactly if it was signed for that content.
- Clocks of the snapshot cache: each call is told which entries are stale; timers are steps of their own.
- SnapshotCache.GatewayCache.PrepareSnapshot: the preparation slots are outside, a non-blocking semaphore before and after it; the digest is a parameter.
- A chunk counts as yielded from the second test on; the transport's own buffering comes after that.
- DirectoryPages.Directories.Build: a scan is a list of entries with distinct names, those that are skipped included.
- The base64 and JSON framing of cursors, request schemas, headers, mount checks and `open_source`.

ZIP inventory and receipts

- Decoding of names, the alphabetic test, and sizes of UTF-8 and JSON texts are parameters.
- ZipDirectory.Locate: a ZIP64 record offset of 2^63 or more counts as malformed; in the source the seek raises an OverflowError that nothing converts.
- A file that shrinks while it is read, and I/O errors: the archive is a byte sequence.
- Receipts.Pages: the fields of the proof and the inventory id are represented by the number of bytes they take.

Viewer

- PointBudget.AlwaysBounded: arithmetic is over the reals; the displayed frame rate and the diagnostic records are left out.
- AccessHold.PointCloudAccess.Fetch: addresses are paths below one origin; parsing of URLs is left out, and a callback that calls back is a later step.
- RateLimiter.ExactBound: the policy of a key is fixed, and a timer that is never late at all is not treated separately.

Native staff reconciliation

- The missing-table case, the exception for a malformed control row, retry delays and error texts; what passes for an address by its length, characters and shape is a parameter.
- NativeStaffAccess.Reconciler.Reconcile: the cohort is the one its own statement reads; that a cohort change raises the generation and so ends the attempt is in the runs.
- NativeStaffAccess.RunKeeps: every cohort change raises the generation by one.
- Sorting.SortedAlike: strings are ordered by code points where JavaScript orders UTF-16 units; comparing two sorted lists for equality comes to the same.

Not modelled at all: `http_adapter.py`, `__main__.py`, schemas, build configuration, `main.js` and the other DOM and rendering
code, `sop-markdown.ts`; they would add only plumbing or rest on libraries that are not here.
