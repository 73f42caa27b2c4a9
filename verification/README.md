# n0ding: a verified model of the cache

n0ding is a pull-through cache for npm, OCI and PyPI. This project models its core in Dafny and
proves what the core promises: a generational on-disk store that is kept in agreement with a shared
byte budget under concurrent writers, collectors, failing clients, failing syscalls and crashes.

Check it with `dafny verify dfyconfig.toml`.

## How the model is built

- `FileSystem` is one store's directory: names lead to inodes, inodes hold contents and times. Every
  syscall of the store is one `Action`, so a crash is a prefix of a list of actions. `View` is the plain
  map from keys to complete entries that a directory serves.
- `StoreSpec` and `PutSpec` give the syscalls of each region under the store's lock, with the outcome of
  every syscall that can fail as an input, and prove what they do to the view and the counters.
- `Store` is the store as a class. Its methods update the directory and the counters one syscall at a
  time and are proved equal to those functions. `Stream` is the bounded writer between upstream, client
  and temporary file. `Storage` is the budget: an `int64` controller with reservations that settle once.
- `StoreMachine` is the concurrent store. A step is one locked region, or one syscall outside the lock,
  of any put, lookup, collection or clean-up; a crash can cut a region after any syscall. `StoreRuns`
  proves the invariant and the results over all runs.
- `Orphans` accounts for the body files on disk that no entry refers to, which no counter counts and no
  collection removes; the gate's final scan looks for them.
- `Accounting` puts any number of such stores, private uploads and collectors beside one budget.
  `Collector` is the maintenance run over all stores, by age and under pressure.
- `SingleFlight` is the keyed lock table and the double-checked lookup over any number of requests.
- `OciProxy`, `PypiFiles`, `Digest`, `CacheKeys` and `Integrity` bind bytes to digests. `HttpPolicy`,
  `PypiLinks`, `ProjectNames`, `RestartSchedule` and `Coordinator` are the smaller pieces.

What the results rest on: a key stands for its SHA-256 hash, which is taken to be injective; a
temporary file's random suffix was never drawn before (`StoreSpec.ReusedSuffixMixesEntries` shows why
this matters); rename is atomic and an unlinked file stays readable through an open handle; one process
owns the directory; SHA-256 is any function to 32 bytes; time is an integer given to each step, with 0
for the zero time; header names arrive in the form `net/http` gives them where a statement says so.

## Where the code does less than its documentation or its callers may expect

- A put that fails should leave the previous entry. It does not if `replace` removed the old metadata and
  could not rename the new in its place: then the entry is gone, and the counters keep it until the next
  start (`StoreSpec.CommitLosesIffFallbackFails`, `StoreRuns.CountersMatchScan`, both with their exact
  condition; `StoreRuns.LossIsReachable` is a run in which it happens).
- A put that reports an error leaves the new entry if the reservation refuses after the metadata rename and
  the clean-up unlink fails too (`StoreSpec.FailedCommitPublishesIffRefusalSticks`, and
  `StoreSpec.RefusedCommitCanPublish` for an example). `Accounting.CommitAlwaysFits` proves that inside the
  service the refusal never happens.
- A body whose last unlink fails, the body of a lost entry, and bodies a crash catches within a commit stay
  on disk: no counter counts them and no collection removes them (`Orphans.StepOrphans`,
  `Orphans.StoredPutCanLeak`). Where there are none, the budget covers the disks (`Accounting.BudgetCoversDisks`).
- Without a byte budget the committed bytes stop at the largest int64 and are exact only below it
  (`Accounting.MoveAccountsIffBounded`).
- A controller with both limits off would let its reserved counter go negative
  (`Storage.ReservedNeverNegativeIffLimited`); the service creates none in that case.
- `strings.EqualFold` accepts U+017F for an s, so a HEAD answer can authorize a hit with a digest that
  does not decode (`OciProxy.LongSAuthorizes`); the body still hashes to the recorded digest.
- A link whose last path element ends in `.metadata` loses its digest even behind a trailing slash
  (`PypiLinks.LinkRoundTrip` for when, `PypiLinks.TrailingSlashLosesDigest` for an example).
- Project names lose separators at both ends and are rejected for other characters, where PEP 503's
  expression keeps a dash (`ProjectNames.NormalizedIsPepIff`, `ProjectNames.LeadingDashDiffers`).
- The gate's loop divides by rounds - 1, so one round stops it; its guard admits one round with no restart
  (`RestartSchedule.RunGate`).
- A maintenance run's record is completed outside the coordinator's lock, so status shows a running run
  with its end set exactly between the two (`Coordinator.RunningWithEndIff`).

Some clauses read `P(...) == true`. A bare `P(...)` makes the verifier expand P where it stands; the
comparison keeps it folded, which is what keeps those proofs small.

## Model

| member | source | states |
|---|---|---|
| StoreRuns.StoreRefinesMap | internal/cache/store.go:98-140 | in every state of every interleaving of puts, lookups, collections, clean-ups and crashes the store serves exactly the last entry stored per key and not dropped since; only whole entries that one put prepared are ever stored; the counters are a full scan plus what replace's fallback lost |
| StoreRuns.LookupServesLastStored | internal/cache/store.go:98-140 | what a lookup serves is exactly the last entry stored under the key and not dropped since, or the one found at startup if nothing happened to the key, provided it has not expired |
| StoreRuns.StepKeepsInv | internal/cache/store.go:227-391 | the invariant behind these results is kept by each of the eleven kinds of step |
| StoreRuns.RunKeepsInv | internal/cache/store.go:227-391 | and so by every run |
| StoreRuns.CrashIsAtomic | internal/cache/store.go:349-391 | a crash after any number of syscalls of a commit, eviction or collection leaves under its key the old complete entry, the new complete entry, or nothing |
| StoreRuns.CrashViews | internal/cache/store.go:349-391 | the same for the whole view: no other key is touched |
| StoreRuns.CrashKeepsInv | internal/cache/store.go:87-96 | after a crash New finds a sound store whose scanned counters are exact |
| StoreRuns.CountersMatchScan | internal/cache/store.go:424-469 | in every run, crashes included, the O(1) counters equal what Reconcile would compute if and only if no commit since the last start lost an entry in the fallback of replace |
| StoreRuns.StepLoss | internal/cache/store.go:625-636 | the counters move away from the scan at exactly those commits, by exactly the entry lost, and a restart brings them back |
| StoreRuns.LosingStepDropsEntry | internal/cache/store.go:371-378 | a commit is such a step if and only if its key is served before it and not after |
| StoreRuns.LossIsReachable | internal/cache/store.go:625-636 | from every empty directory there is a run of two puts that ends with the byte counter above the scan |
| StoreRuns.PutCanLose | internal/cache/store.go:371-378 | from every reachable state a put whose commit fails in the fallback takes the old entry of its key from the view, and the counters keep it |
| StoreRuns.TempsAreSafe | internal/cache/store.go:260-285 | no put in flight ever misses a temporary file it still needs, whatever CleanupStaleTemps does; once no put is in flight no name is registered and the only temporary files are left-overs of failed removals or crashes |
| StoreRuns.NoTempsRemain | internal/cache/store.go:324-338 | with working removals and no crash the temporary files and activeTemps are both empty whenever no put is in flight |
| StoreRuns.CandidateRemovesOnlyItsEntry | internal/cache/store.go:187-217 | however many puts, lookups and collections came between, a candidate removes its key exactly if the key still serves the very entry the candidate was taken from |
| StoreRuns.HandleReadsOriginal | internal/cache/store.go:129-139 | a reader that opened a committed body reads the original bytes through every later run |
| StoreRuns.StepIsLegal | internal/cache/store.go:227-391 | every step is a run of syscalls that create or write only temporary files and publish only by rename |
| StoreRuns.ServedEntriesSatisfy | internal/cache/store.go:98-140 | what holds of every entry stored holds of every entry served |
| StoreRuns.VettedEntriesAreServed | internal/cache/store.go:302-316 | what is checked of every body before its metadata is prepared, and held at the start, holds of every entry in every state of every run |
| StoreMachine.ReplayIsLastStored | internal/cache/store.go:98-140 | the map being refined is the last store of each key without a later event on that key |
| StoreRuns.PutCanComplete | internal/cache/store.go:227-391 | from every reachable state, whatever else is in flight, a put with fresh suffixes and working syscalls can run to its end, and then its key serves exactly its entry, every other key what it served before |
| StoreRuns.PutIsRun | internal/cache/store.go:227-391 | a put of the class is a run of the machine: for all commit and clean-up failures its final state is the one the labels of the put lead to |
| StoreRuns.RejectedPutIsRun | internal/cache/store.go:302-306 | a put whose body is rejected is a run that prepares no metadata |
| StoreRuns.EmptyDirectoryBoots | internal/cache/store.go:87-96 | an empty directory is a start, so the results over runs are about something |
| StoreSpec.CommitIsAtomic | internal/cache/store.go:349-391 | for every combination of failing syscalls and at every point of the commit the view is the old one, the one with the new entry, or - only along the fallback or a refusal - the one without the key; which of them it ends in is determined by what failed |
| StoreSpec.ReplacePublishes | internal/cache/store.go:625-636 | replace: the new entry is live if a rename worked; otherwise the old entry is gone exactly if its metadata was removed before the second rename failed |
| StoreSpec.CommitLosesIffFallbackFails | internal/cache/store.go:371-378 | an entry that was served is gone after a commit if and only if both renames of the metadata fail and the unlink between them works |
| StoreSpec.FailedCommitCanLose | internal/cache/store.go:625-636 | a directory and faults with which a failed put loses the old entry |
| StoreSpec.FailedCommitPublishesIffRefusalSticks | internal/cache/store.go:379-382 | a commit that reports an error leaves the new entry if and only if everything was published, the reservation refused and the clean-up unlink failed |
| StoreSpec.RefusedCommitCanPublish | internal/cache/store.go:379-382 | a directory and faults with which that happens |
| StoreSpec.CommitKeepsCounters | internal/cache/store.go:349-391 | a commit keeps the counters in step with the scan, except that the fallback that loses a complete entry leaves them above it by exactly that entry |
| StoreSpec.ReusedSuffixMixesEntries | internal/cache/store.go:275 | the random suffix must be fresh: with the live generation's suffix reused, the new body would be served under the old metadata |
| StoreSpec.EvictIsAtomic | internal/cache/store.go:547-559 | removing body before metadata shows only the old view or the view without the key |
| StoreSpec.RemoveOnlyNamedGeneration | internal/cache/store.go:187-217 | RemoveCandidate drops the key exactly if its current body is the observed generation and can be unlinked, and changes nothing otherwise |
| StoreSpec.RemoveKeepsCounters | internal/cache/store.go:209-210 | an eviction keeps counters and scan in step, whatever fails |
| StoreSpec.CollectIsAtomic | internal/cache/store.go:520-559 | age collection removes a key exactly if it serves a complete entry with a stored time, at or before the cutoff, whose body can be unlinked; it skips exactly a metadata file that does not decode or is that old without a complete entry |
| StoreSpec.CollectKeepsCounters | internal/cache/store.go:551-554 | age collection keeps counters and scan in step, whatever fails |
| StoreSpec.CollectTouchesOneKey | internal/cache/store.go:516-561 | collecting one key leaves every file of the others alone |
| StoreSpec.ViewBytesPut | internal/cache/store.go:383-386 | replacing an entry moves the scanned bytes by the new size less the old valid one |
| FileSystem.GenerationRoundTrip | internal/cache/store.go:610-619 | the body file name a put records resolves to the generation it renamed its body to |
| FileSystem.DoEffect | internal/cache/store.go:227-391 | every syscall of the store touches exactly the names it mentions |
| FileSystem.DoDates | internal/cache/store.go:138 | and dates exactly the file it works on; a rename takes its time along |
| FileSystem.OtherKeysKeep | internal/cache/store.go:568-573 | files of one key never change what other keys serve |
| FileSystem.OpenHandleIsStable | internal/cache/store.go:127-139 | an inode behind a committed or unlinked body is never written again by any legal run of syscalls |
| PutSpec.PutChain | internal/cache/store.go:227-391 | from the first temporary file to the last clean-up: a stored put changes its key to its entry and nothing else, a failed one leaves the view or, exactly if the fallback failed, loses the key, and the counters follow |
| PutSpec.PutLeavesNoTemps | internal/cache/store.go:265-338 | with working unlinks a put leaves the set of temporary files as it found it, stored or not |
| PutSpec.CommitTemps | internal/cache/store.go:365-380 | a commit consumes its two temporary names exactly as far as its renames went, and no other |
| PutSpec.CommitDatesBody | internal/cache/store.go:368-378 | a commit that works leaves the new body dated with the stored time, whatever it retires afterwards |
| PutSpec.AbandonedChain | internal/cache/store.go:272-308 | a put that gives up before its metadata changes no entry, no counter and no registered name |
| PutSpec.UnwrittenMetadataChain | internal/cache/store.go:316-347 | likewise one whose metadata cannot be written |
| Store.Store.Open | internal/cache/store.go:87-96 | New: an error exactly if the directory cannot be made or the scan fails, otherwise counters equal to the scan and no registered temporary file |
| Store.Store.Reconcile | internal/cache/store.go:430-469 | the rebuilt counters are the bytes and number of the complete entries; a walk that fails leaves the old ones |
| Store.Scan | internal/cache/store.go:434-460 | the walk counts every complete entry once, unless it fails |
| Store.Store.Lookup | internal/cache/store.go:98-140 | a hit is exactly an unexpired complete entry whose files can be read; its inode holds the body and can no longer be written; unless that fails, the body behind that inode is dated now and nothing else in the directory changes; a miss is exactly no metadata, expired metadata or a missing body |
| Store.ReadIsListedLast | internal/cache/store.go:134-139 | a read is a use: the next listing gives the key the time of the hit, behind every entry last used before, and the other entries the last use they had; so pressure eviction takes it after them |
| Store.Store.Candidates | internal/cache/store.go:144-185 | every complete entry once, with its size and as last use the time of its body file, or the stored time if the file has none, in that order, the sizes summing to the scanned bytes; a walk that fails leaves a shorter list of true candidates |
| Store.ListCandidates | internal/cache/store.go:148-184 | the same for any directory state |
| Store.ListingSumsToView | internal/cache/store.go:148-184 | any list naming each entry once sums to what a scan counts |
| Sorting.SortSorts | internal/cache/store.go:183 | the listing is put in order without losing or repeating a candidate |
| Store.Store.RemoveCandidate | internal/cache/store.go:187-217 | the entry goes if and only if its metadata still names that generation with that size, the body is there and can be unlinked; the error is an unreadable metadata file or a failed unlink of exactly such an entry |
| Store.Store.CollectKey | internal/cache/store.go:516-561 | one metadata file of the age walk: the new state and the counts |
| Store.Store.GC | internal/cache/store.go:509-566 | age collection as a fold over the walk, stopping at the first walk error |
| Store.AgeCollectionIsExact | internal/cache/store.go:509-566 | after any part of a walk, of the visited keys exactly those with an expired, removable entry are gone, the result counts what left the view and the counters, and the skip count is exact |
| Store.Store.CleanupStaleTemps | internal/cache/store.go:471-507 | removes exactly the unregistered temporary files last written at or before the cutoff, counts them and their bytes, stops at the first failure; no entry and no counter changes |
| Store.Store.PublishFiles | internal/cache/store.go:349-379 | the syscalls of the commit region, in order, with the clean-up of each failure |
| Store.Store.Replace | internal/cache/store.go:625-636 | replace issues exactly the syscalls of its branch |
| Store.Store.CommitRegion | internal/cache/store.go:349-391 | the region under the lock: files, counters and reservation in every case, a refused reservation included |
| Store.Store.FinishCommit | internal/cache/store.go:379-390 | the reservation settles with the written and replaced sizes before the counters move and the old body goes; refused, the new body is taken away |
| Store.Store.Spool | internal/cache/store.go:288-300 | the body reaches client and temporary file together, and all of it if and only if the stream and every write go right; overflow means longer than the limit |
| Store.Store.PutSpooled | internal/cache/store.go:248-391 | stored if and only if the stream arrives, fits, syncs, passes the verifier and every step of its publication works; a rejected body gets no metadata file; an overflow is recorded as a bypass of its length |
| Store.Store.PutReserved | internal/cache/store.go:247-391 | the same under a reservation: none survives its put, and the budget moved as the counter did |
| Store.Store.PutStreamVerified | internal/cache/store.go:227-391 | stored if and only if the source ends well, no write to client or cache file fails, mkdir, create, sync and metadata work, the verifier accepts, the renames work, and under a budget the free space is known, the declared length fits in plain integers and covers the content; passed over if and only if it is not admitted or too long and the client still gets it all; then the new entry, its date, the view, the counters, temporary names, reservations, budget and bypass counts |
| Store.DeclaredLength | internal/cache/store.go:393-400 | the length admission works with is the first Content-Length value if it is a positive int64, and unknown for zero, a sign of minus or more than an int64 |
| Store.ClosePut | internal/cache/store.go:260-391 | the deferred clean-ups bring every ending of a put to the stated outcome |
| Stream.CopyThrough | internal/cache/store.go:288-300 | for every source, chunking, limit and fault: success comes if and only if the source ends without error and no write to the client or the cache file goes wrong, and means that client and hasher saw exactly the source; overflow means exactly that it exceeds the limit; without overflow the cache holds exactly the source |
| Stream.BoundedCacheWriter.Write | internal/cache/store.go:411-422 | one write: what the client accepted is what the cache gets, until the limit would be passed; it fails exactly if the client or the cache file refuses |
| Stream.CopyPlain | internal/cache/store.go:239-246 | a response that is not admitted is delivered unchanged if no write to the client goes wrong, and succeeds exactly if the source also ends well |
| Storage.SaturatingAdd | internal/storage/controller.go:145-150 | the exact sum, stopped at the largest int64 |
| Storage.ExceedsAvailable | internal/storage/controller.go:141-143 | the overflow-free test means used + requested > limit |
| Storage.ScaleBasisPoints | internal/storage/controller.go:152-154 | the split product never leaves int64 and is value * basisPoints / 10000, truncated towards zero |
| Storage.WatermarksAreOrdered | internal/storage/controller.go:123-139 | monotone in both arguments, so low <= high <= budget |
| Storage.AdmissionFits | internal/storage/controller.go:53-69 | what admission guarantees afterwards: the budget holds exactly, without saturation, and with a floor all live reservations fit within free less floor |
| Storage.AdmitsWhatFits | internal/storage/controller.go:53-69 | admission in plain integers, both ways: exactly what fits the budget and leaves the floor is admitted, whatever the saturating sum and the clamped difference do |
| Storage.StepIsSound | internal/storage/controller.go:53-121 | every operation keeps reserved equal to the live reservations and usage within the budget |
| Storage.RunIsSound | internal/storage/controller.go:53-121 | and so does every run by any number of holders |
| Storage.ReservedNeverNegativeIffLimited | internal/httpserver/server.go:205-212 | the reserved counter never goes negative in any run if and only if one of the two limits is on, which is when the controller is created |
| Storage.SettlesOnce | internal/storage/controller.go:82-109 | after a reservation settled, every later commit or release of it changes nothing, in any run |
| Storage.Reservation.Commit | internal/storage/controller.go:82-98 | only the first settlement counts; it commits exactly if the amounts fit, and then committed is the exact difference, stopped at the largest int64 |
| Storage.Reservation.Release | internal/storage/controller.go:100-109 | gives the amount back once |
| Storage.Controller.constructor | internal/storage/controller.go:40-48 | a new controller holds no reservation |
| Storage.Controller.Reserve | internal/storage/controller.go:53-69 | a fresh reservation if and only if the amount is positive, committed + reserved + amount is within the budget and reserved + amount leaves the floor; reserved grows by it; otherwise a bypass is counted |
| Storage.Controller.RecordBypass | internal/storage/controller.go:71-78 | counts one object and its bytes, if positive, and touches nothing else |
| Storage.Controller.TakeOut | internal/storage/controller.go:87-90 | the part of a settlement that runs once |
| Storage.Controller.Remove | internal/storage/controller.go:111-121 | subtracts a positive amount, clamped at zero |
| Storage.Controller.Snapshot | internal/storage/controller.go:123-139 | watermarks and pressure at one instant, in plain integers, ordered when their ratios are |
| Accounting.AccountingHolds | internal/httpserver/server.go:180-221 | in every reachable state of any number of stores sharing one budget, committed is the sum of the store counters, the uploads, what is collected and not yet returned, and what never will be; reserved is the sum of the live reservations |
| Accounting.DisksStayAccounted | internal/httpserver/server.go:180-221 | from directories on disk to every reachable state, through crashes and new starts: a server whose files fit an int64 opens with an accounted budget and keeps it |
| Accounting.DisksAreAccounted | internal/httpserver/server.go:180-221 | the budget a server starts is accounted if and only if the bytes of all complete entries and uploads fit an int64 |
| Accounting.MoveKeepsInv | internal/cache/store.go:379-386 | each move of a store, an upload, a collector or a reservation keeps that, and so does a crash of the process in any region of every store with the start after it |
| Accounting.MoveAccountsIffBounded | internal/storage/controller.go:145-150 | a move breaks the accounting if and only if it pushes the sum past the largest int64, which without a byte budget the saturating addition would hide |
| Accounting.CommitAlwaysFits | internal/cache/store.go:379-382 | the Commit inside a put never returns false |
| Accounting.RemoveNeverClamps | internal/storage/controller.go:111-121 | passing on collected bytes never meets the clamp |
| Accounting.BudgetCoversDisks | internal/httpserver/server.go:317-327 | committed counts every body file on every disk but the orphans: it is above them by what is in flight, forgone or lost, and where no store has an orphan it covers the disks |
| Accounting.BudgetCoversEntries | internal/httpserver/server.go:317-327 | against the entries the stores serve it is above by exactly those amounts |
| Accounting.StepMovesBytes | internal/cache/store.go:383-386 | only a successful commit and a collection move a store counter, by these amounts |
| Accounting.StartupBytes | internal/httpserver/server.go:180-204 | the startup sum, stopped at the largest int64 |
| Accounting.StartIsAccounted | internal/httpserver/server.go:205-221 | stores with no put in flight under the budget a start computes for them satisfy the invariant if and only if the sum fits an int64 |
| Accounting.StartupIsStart | internal/httpserver/server.go:180-212 | the sum of the startup loop over store counters and private directories is the committed usage the controller is created with |
| Orphans.DiskIsServedAndOrphans | tools/native-preview-gate.sh:151-169 | the bytes of all body files are those of the entries served and those of the orphans, the bodies that no complete entry refers to |
| Orphans.CommitOrphans | internal/cache/store.go:365-391 | the orphans after a commit, exactly: the old body if it cannot be unlinked or its entry was lost, the new one if a failed commit cannot unlink it, less what the commit retired |
| Orphans.StepOrphans | internal/cache/store.go:227-391 | nothing else makes an orphan, except that a crash within a commit leaves two at most |
| Orphans.OrphansAreLeaked | internal/cache/store.go:227-391 | so in every run the orphans are among those of the start and those leaked at such steps |
| Orphans.EveryBodyIsServed | tools/native-preview-gate.sh:162-169 | in a run that leaks nothing, on a directory without orphans, every body file is the current body of its key and the byte counter is the size of all body files |
| Orphans.CounterCoversDisk | internal/cache/store.go:424-469 | in every run the counter and the orphans together are the body files on disk and what was lost |
| Orphans.StoredPutCanLeak | internal/cache/store.go:387-389 | a stored put whose last unlink fails leaves the old body, on disk and in no counter |
| Collector.PressureIsExact | internal/httpserver/server.go:337-376 | without faults, pressure eviction removes the shortest prefix of the global least-recently-used order that frees the excess over the low watermark; survivors were used no earlier; the result counts its bytes and objects and no skip; it ends at or below the low watermark or with nothing left |
| Collector.EvictionConserves | internal/httpserver/server.go:356-374 | with any faults, the bytes and objects counted are exactly what the store counters, and the bytes what the budget, lost; each store lost exactly the keys whose bodies could be removed; the skips are the items with a failed unlink |
| Collector.Server.CollectPressure | internal/httpserver/server.go:337-376 | the loop stops at the first prefix that frees enough, at the end, or when cancelled; with no excess or a listing that fails it does nothing; without faults the result is that of PressureIsExact |
| Collector.Server.EvictUntil | internal/httpserver/server.go:356-374 | the loop over the sorted candidates |
| Collector.Server.RemoveItem | internal/httpserver/server.go:363-372 | one removal and its effect on result and budget |
| Collector.Server.ListAll | internal/httpserver/server.go:343-355 | every complete entry of every store once, in one order of last use; an error exactly if a listing fails |
| Collector.Server.CollectByAge | internal/httpserver/server.go:312-330 | the counters move by what the result counts, which is the sum of the walks that ended well; a walk that fails leaves the budget above the stores by that walk's bytes; an age that is not positive fails at the first repository |
| Collector.Server.Collect | internal/httpserver/server.go:308-330 | one run, under pressure by last use and otherwise by age, with or without a budget: the stores stay sound and covered, no reservation is touched, the result is what the counters lost, and the run fails exactly where a listing or walk fails or the context is cancelled |
| Collector.Server.AgeStore | internal/httpserver/server.go:317-327 | one store: its bytes reach the budget only if the walk succeeds |
| Collector.Server.AgeAll | internal/httpserver/server.go:312-330 | the result adds up the walks that ended well, and the run fails exactly at the first walk that fails or finds the context cancelled |
| Collector.AgedIsCounted | internal/httpserver/server.go:317-327 | a walk counts what its store lost, in bytes and objects, and one skip for each visited metadata file that could not be judged or removed |
| SingleFlight.StepKeepsInv | internal/npmproxy/proxy.go:351-371 | for any number of requests and keys: requests interested in a key share one item, its counter is their number, the entry exists exactly while there are any, and at most one owns its mutex |
| SingleFlight.RunKeepsInv | internal/ociproxy/proxy.go:520-540 | in every schedule |
| SingleFlight.LeaveKeepsShared | internal/npmproxy/proxy.go:363-370 | an item leaves the map only when nobody refers to it |
| SingleFlight.OneOwnerPerKey | internal/npmproxy/proxy.go:361-364 | at most one request per key is in the guarded section |
| SingleFlight.SomebodyCanStep | internal/npmproxy/proxy.go:351-371 | no deadlock: while a request is unfinished, some request can step |
| SingleFlight.TurnsFinish | internal/npmproxy/proxy.go:351-371 | every step of a request uses up a bounded amount of work |
| SingleFlight.EverybodyCanFinish | internal/pypiproxy/proxy.go:1207-1227 | from every reachable state all requests present can be run to completion |
| SingleFlight.ExactlyOneFetch | internal/npmproxy/proxy.go:106-132 | of any number of cacheable requests for an uncached key exactly one fetches it and all the others are hits, in every schedule in which the fetch stores and the entry stays |
| SingleFlight.BypassIsNeverHit | internal/npmproxy/proxy.go:106-132 | in every schedule from an empty world a request that must bypass the cache is never answered from it |
| SingleFlight.LookupHitsIff | internal/pypiproxy/proxy.go:308-328 | either lookup makes a request a hit if and only if it is cacheable and its key is cached |
| SingleFlight.OnlyLookupsHit | internal/pypiproxy/proxy.go:308-328 | no other step makes one |
| SingleFlight.CacheChanges | internal/npmproxy/proxy.go:106-132 | a key enters the cache only by a fetch that stores and leaves it only by expiry |
| SingleFlight.StepCoalesces | internal/pypiproxy/proxy.go:308-328 | the invariant behind it, kept by every step |
| SingleFlight.KeyedLocker.Count | internal/npmproxy/proxy.go:352-359 | the region that finds or allocates the item and counts the caller |
| SingleFlight.KeyedLocker.Uncount | internal/npmproxy/proxy.go:364-369 | the region that uncounts the caller and deletes the entry at zero |
| OciProxy.Proxy.ServeHTTP | internal/ociproxy/proxy.go:99-150 | a hit is served if and only if the request may be answered from the cache, the entry is fresh for its kind and readable, and one of the two HEAD answers carries its digest; it is exactly the cached body and hashes to that digest unless spelled with a long s; what a miss stores hashes to the digest in the path, or else to the one announced, and is recorded with it; passed through and refused have their exact conditions |
| OciProxy.AuthorizedMatches | internal/ociproxy/proxy.go:193-220 | an authorized body hashes to the upstream digest if and only if the digest is written without U+017F |
| OciProxy.LongSAuthorizes | internal/ociproxy/proxy.go:217-219 | such a spelling is authorized and does not decode: the condition is not vacuous |
| OciProxy.Proxy.LookupAuthorized | internal/ociproxy/proxy.go:126-133 | found if and only if the entry is there, fresh and readable and the upstream's HEAD answer succeeds with its digest, up to letter case |
| OciProxy.Proxy.LookUp | internal/ociproxy/proxy.go:184-191 | a lookup that fails is one that finds nothing |
| OciProxy.Proxy.TryCache | internal/ociproxy/proxy.go:126-146 | one side of the double-checked lookup |
| OciProxy.Proxy.TryCacheTwice | internal/ociproxy/proxy.go:123-146 | both sides of it: a hit exactly if either answer agrees |
| OciProxy.Proxy.ServeMiss | internal/ociproxy/proxy.go:274-334 | exact conditions for passing through, refusing and caching; what is stored is the upstream body, hashes to the digest in the request if it has one and else to the first one announced, and is recorded with that text; which puts are stored; what the client gets |
| OciProxy.Proxy.CacheResponse | internal/ociproxy/proxy.go:324-333 | the switch on the kind of resource |
| OciProxy.Proxy.PassThrough | internal/ociproxy/proxy.go:420-434 | the client of a GET gets the body, that of a HEAD nothing, the store nothing |
| OciProxy.CachedHeadersTellDigest | internal/ociproxy/proxy.go:321-322 | whatever the upstream sent, the stored headers carry the digest the entry was checked against, through both filters, and none that must not be stored |
| OciProxy.Proxy.CacheBlob | internal/ociproxy/proxy.go:379-408 | stored if and only if everything a put needs works out and the bytes hash to the expected digest; the bytes hashed, sent and committed are the same |
| OciProxy.Proxy.CacheManifest | internal/ociproxy/proxy.go:336-377 | a manifest of more than 16 MiB passes through; one that cannot be read or does not hash to the digest is refused before a byte is stored or sent; every other is put and then sent |
| OciProxy.Proxy.StoreBytes | internal/cache/store.go:219-225 | a put of checked bytes keeps the store verified and, if stored, serves exactly them under their digest; when it is stored, exactly |
| OciProxy.ManifestLengthIsKnown | internal/ociproxy/proxy.go:360-362 | the length a manifest is stored with is read back by admission, so that no manifest is passed over for an unknown size |
| OciProxy.ClassifyPromises | internal/ociproxy/proxy.go:458-473 | a digest in a path decodes and ends it, a blob always has one, and only manifests are cached without |
| OciProxy.FindIsFirst | internal/ociproxy/proxy.go:459-466 | the marker found is the first, and one is found if there is one |
| OciProxy.ManifestRoute | internal/ociproxy/proxy.go:458-473 | a manifest is cacheable under every tag and digest; under a digest it lives ten years, under a tag as long as the repository is told |
| OciProxy.BlobRoute | internal/ociproxy/proxy.go:235-240 | a blob is cacheable under a digest and nothing else, for ten years |
| OciProxy.PutKeepsVerified | internal/cache/store.go:302-306 | no ending of a verified put can put an unverified entry into the store |
| Digest.DecodeIsCanonical | internal/ociproxy/proxy.go:490-497 | what decodes to a digest is "sha256:" and its hexadecimal form up to letter case, and nothing else |
| Digest.FoldedDigestDecodes | internal/ociproxy/proxy.go:217-219 | case folding agrees with decoding except for the long s, exactly |
| Digest.EqualBytes | internal/ociproxy/proxy.go:499-508 | the or-of-differences loop decides equality |
| Digest.VerifySum | internal/ociproxy/proxy.go:479-488 | accepts exactly the digest that the expected text encodes |
| Digest.DecodeOfEncode | internal/ociproxy/proxy.go:495 | hexadecimal round trip |
| PypiFiles.FileProxy.StreamFile | internal/pypiproxy/proxy.go:502-539 | stored if and only if everything a put needs works out and the bytes hash to the digest, if there is one; recorded with it |
| PypiFiles.FileProxy.ServeFile | internal/pypiproxy/proxy.go:279-328 | a hit if and only if the request may be answered from the cache and a fresh, readable entry is there, and then it hashes to the digest asked for; put to the store exactly if not and the response may be stored; which puts are stored; the client of a GET gets the cached or the upstream body, that of a HEAD none |
| PypiFiles.FileProxy.ServeFileMiss | internal/pypiproxy/proxy.go:464-500 | a file that is not in the cache: what reaches the store and what the client |
| PypiFiles.FileProxy.LookupFile | internal/pypiproxy/proxy.go:330-337 | found if and only if the entry is there, fresh and readable |
| PypiFiles.PutKeepsFiles | internal/pypiproxy/proxy.go:734-736 | the digest is part of the key, so storing one file says nothing about another |
| Integrity.ServedOciEntriesAreVerified | internal/ociproxy/proxy.go:379-408 | over every interleaving and crash, if each put checked its body against its digest in the state in which it prepares its metadata, every OCI entry a lookup can return hashes to its recorded digest |
| Integrity.ServedFilesAreVerified | internal/pypiproxy/proxy.go:488-535 | likewise every PyPI file keyed by a digest |
| CacheKeys.RequestKeyIsInjective | internal/npmproxy/proxy.go:178-180 | different targets or Accept headers never share an entry |
| CacheKeys.FileKeyIsInjective | internal/pypiproxy/proxy.go:734-736 | kind, target, Accept and digest can be read back from a key |
| CacheKeys.RepositoriesShareNoKey | internal/pypiproxy/proxy.go:734-736 | repositories of different names never share an entry, whatever they proxy |
| HttpPolicy.CombiningChangesNoDecision | internal/httppolicy/policy.go:110-166 | bypass, storage and connection-named fields are the same when field lines are joined by commas (section 5.3 of RFC 9110; directives of section 5.2 of RFC 9111) |
| HttpPolicy.AllowsStorageIff | internal/httppolicy/policy.go:127-166 | a response may be stored if and only if no element speaks against it: no-store in the request; no-cache, no-store, private or Pragma no-cache in the response; a Vary beyond the key; a credential field; a cookie without an explicit public |
| HttpPolicy.BypassesIff | internal/httppolicy/policy.go:110-122 | a request goes around the cache if and only if one element is no-cache, no-store, max-age=0 or Pragma no-cache |
| HttpPolicy.OneElementDecides | internal/httppolicy/policy.go:110-135 | one such element is enough, wherever it stands among the field lines and in whatever case |
| HttpPolicy.DirectiveReads | internal/httppolicy/policy.go:203-219 | how an element is read: its name in lower case up to the first equals sign, its value trimmed |
| HttpPolicy.CacheDirectives | internal/httppolicy/policy.go:203-219 | the loop yields exactly the named elements of all lines, in order |
| HttpPolicy.ResponseHeaders | internal/httppolicy/policy.go:80-93 | keeps every end-to-end field, under its canonical name, and nothing else |
| HttpPolicy.FilteredIff | internal/httppolicy/policy.go:80-93 | field by field: dropped are fields without a line, hop-by-hop fields and those a Connection element names, in any letter case; all others are kept as they were |
| HttpPolicy.FilteringTwiceIsFilteringOnce | internal/httppolicy/policy.go:98-106 | filtering in the proxy and again in the store equals filtering once, and nothing private survives |
| PypiLinks.LinkRoundTrip | internal/pypiproxy/proxy.go:349-395 | the link of a file leads back to the same URL without its fragment, and to the same digest if and only if the last path element does not name a sidecar or there was no digest |
| PypiLinks.FollowedIff | internal/pypiproxy/proxy.go:349-395 | a link is followed if and only if it carries an absolute http(s) URL of an allowed origin without userinfo or fragment, and no digest, one of 64 hexadecimal characters, or one for a sidecar; what is fetched is that URL, or its sidecar |
| PypiLinks.TrailingSlashLosesDigest | internal/pypiproxy/proxy.go:380-390 | a URL whose path does not end in .metadata and whose link loses every digest |
| PypiLinks.SidecarOfLink | internal/pypiproxy/proxy.go:368-380 | with .metadata appended, the link leads to the target's sidecar without a digest (PEP 658, PEP 714) |
| PypiLinks.FragmentShaIsStable | internal/pypiproxy/proxy.go:1142-1155 | a digest taken from one link is taken unchanged from the next |
| PypiLinks.FragmentOfDigest | internal/pypiproxy/proxy.go:1142-1155 | a digest in hexadecimal is read from a fragment as itself |
| ProjectNames.NormalizeProjectName | internal/pypiproxy/proxy.go:1069-1090 | the loop computes the non-empty runs joined by single dashes, or rejects the name |
| ProjectNames.NormalizedIsIdempotent | internal/pypiproxy/proxy.go:1069-1090 | normalising twice is normalising once |
| ProjectNames.NormalizedIsCanonical | internal/pypiproxy/proxy.go:1069-1090 | a normalised name has only a-z, 0-9 and single dashes strictly inside; it is empty if and only if the name has another character or nothing but separators |
| ProjectNames.SameNameIffSameWords | internal/pypiproxy/proxy.go:1073-1088 | two acceptable names normalise alike if and only if they have the same words |
| ProjectNames.NormalizedIsPepIff | internal/pypiproxy/proxy.go:1069-1090 | the normal form is that of PEP 503 if and only if the name consists of letters, digits and separators and neither starts nor ends with a separator |
| ProjectNames.LeadingDashDiffers | internal/pypiproxy/proxy.go:1073-1077 | at "-a" the two differ |
| RestartSchedule.RunGate | tools/native-preview-gate.sh:51-60 | the guard refuses exactly what the loop cannot complete, except one round with no restart, at which the loop divides by zero; otherwise every round is what the validator expects |
| RestartSchedule.RunRounds | tools/native-preview-gate.sh:330-352 | the loop on any arguments: one conditional restart a round reaches the target if and only if it is less than the number of rounds, falls short at rounds - 1 otherwise, and stops with an arithmetic error at one round; the first round is cold, and round r + 1 follows a restart exactly if r * restarts / (rounds - 1) grew |
| RestartSchedule.EveryRestartIsBoundOnce | tools/validate-native-preview-workload.py:171-175 | the rounds after a restart are bound to ledger rows 1..restarts, each once, in order |
| RestartSchedule.DueGrowsByAtMostOne | tools/validate-native-preview-workload.py:137-141 | at most one restart becomes due between rounds |
| Coordinator.Coordinator.Begin | internal/maintenance/coordinator.go:57-67 | a run starts only when none is in progress, with the next id, its trigger and time and an empty result; otherwise the caller gets a copy of the current one |
| Coordinator.Coordinator.Fill | internal/maintenance/coordinator.go:69-76 | the outcome and the end are written to the shared run without the lock; an error adds one to the result |
| Coordinator.Coordinator.Complete | internal/maintenance/coordinator.go:78-82 | the finished run becomes the last one |
| Coordinator.Coordinator.RunOnce | internal/maintenance/coordinator.go:57-83 | begun, filled and completed in that order: the record returned has the next id, the trigger, both times and the result, with one more error if the runner failed, and is the last one afterwards |
| Coordinator.Coordinator.Snapshot | internal/maintenance/coordinator.go:85-99 | copies of the current and the last run; running exactly while a run is in progress; the last id is nextID when idle and nextID - 1 when running |
| Coordinator.OneRunAtATime | internal/maintenance/coordinator.go:57-83 | in every history accepted runs have the ids 1, 2, 3, ... in order and all but the current one are completed |
| Coordinator.RunKeepsBook | internal/maintenance/coordinator.go:57-83 | in every history the last run is the newest one, or the one before the current one, and has its end |
| Coordinator.RunningWithEndIff | internal/maintenance/coordinator.go:69-82 | in every history a run in progress has its end set if and only if it was filled and is not yet completed |
| Coordinator.RunningWithEndExists | internal/maintenance/coordinator.go:69-82 | a history in which status reports such a run |

## Left out

- HTTP transport, redirects, status pages, metrics, logging and request statistics.
- JSON and HTML decoding and rendering, URL parsing and percent-encoding: URLs are records, metadata files
  hold records, and printing and parsing are inverses. Metadata over 1 MiB is one that does not decode.
- Watermark ratios arrive as basis points between 0 and 10000; the float rounding in `NewController` is not modelled.
- The free-bytes reading, the clock and random suffixes are inputs; SHA-256 is uninterpreted.
- Private PyPI publishing on disk: an upload is its reservation and its commit of (size, 0).
- Paths as strings: `FileSystem.Path` gives the kinds of file names; sharding by the first two hash digits,
  the `.json` and `.body` suffixes and the sorting of names are not spelled out.
- The removal of a temporary file and the release of its name are one step of `StoreMachine`; in the code they
  are two deferred statements with nothing between them that another step could observe.
- Stat and Open errors other than a missing file are modelled in Lookup only.
- The cache's byte and object counters are unbounded integers in the store; the shared budget is a real int64.
- Collector.PressureIsExact: speaks of a sweep over the state it listed; puts that arrive between listing and removal are
  covered by StoreRuns.CandidateRemovesOnlyItsEntry and Accounting.AccountingHolds instead.
- Collector.Server.CollectByAge: the order of each walk is an input; sub-directories that vanish are not modelled.
- Store.Store.PutStreamVerified: asks that the budget covers the store's counter, which Accounting.AccountingHolds proves of
  every reachable state, and that suffixes are fresh; a refusal is the controller's to decide and so is no fault of its own.
- StoreRuns.StoreRefinesMap: a refused reservation is not among the steps, because Accounting.CommitAlwaysFits proves that it
  cannot happen; StoreSpec.CommitIsAtomic says what it would do.
- Collector.Server.ListAll: orders by last use; like the library's sort it promises nothing about entries used at the same time.
- SingleFlight.ExactlyOneFetch: assumes that the fetch is stored and the entry neither expires nor is collected, as
  coalescing itself does; the lock table's results need no such assumption.
- OciProxy.Proxy.ServeHTTP: one request at a time; interleavings are the subject of StoreRuns and Integrity. Redirects and
  the request's own authorization header are transport. A client that stops reading is a fault of Stream.Client.
- PypiFiles.FileProxy.ServeFile: a missing upstream response and the status and headers sent are transport.
- Collector.Server.RemoveItem: the server's stores are values here; the new value is the one Store.Store.RemoveCandidate is
  proved to reach, as Collector.Server.AgeStore takes that of Store.Store.GC.
- ProjectNames.NormalizedIsPepIff: lower case is Go's for both forms, as far as it reaches ASCII.
- Storage.Controller.constructor: the ratios' rounding from floats is left out.
- npm metadata rewriting, PyPI page rewriting and their size limits.
- Configuration checks, the remaining tooling, installers, drills and soak fixtures.
- Tickers: a maintenance trigger is a call.
