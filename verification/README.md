# Verified model of Izumi's sync Worker protocols and native transfer code

Izumi is a media client with a Cloudflare Worker behind it. This project models, in Dafny, the parts of
both whose comments promise something over many steps: the Worker's D1 protocols and the desktop shell's
transfer loops, schedulers and text transforms. Each module has a functional specification of the code's
steps, imperative code proved against it, and theorems over all inputs or all interleaved runs.

| module | part of the system |
|---|---|
| `RecordChunks` | content-addressed upload store with a byte budget, garbage collection and atomic manifest swap |
| `AccountLease` | the per-account lease used as a fencing token |
| `DeltaSync`, `PagedSync` | snapshot plus delta replay of a connected account, its paging, and the two composed |
| `ClientLinks`, `ClaimGrants`, `FailureLimiter` | minting, cancelling, claiming and retrying client links; when they succeed; the limiter on failed unlocks |
| `TvTicket` | one-shot source tickets on one timestamp column |
| `MapLimit` | the bounded worker pool |
| `PresenceMailbox` | the latest-wins mailbox of the Discord presence |
| `PermitGates` | the four-class permit scheduler of the HTTP bridge |
| `ResumeProtocol`, `Download` | the byte-range server, the resumable download loop, and the two composed |
| `Subtitles` | SRT and WebVTT conversion |
| `CanonicalJson`, `JsonGrammar` | the JSON printer that signatures are computed over, and the grammar its text is read by |
| `HlsAttribute`, `PlaylistRewrite`, `WrittenPlaylists` | the HLS attribute scanner, the playlist rewriter, and the rewriter on playlists as they are written |
| `Sums`, `Text`, `Decimal`, `Wrappers` | shared vocabulary |

## How to read it

- Tables are maps, and each SQL statement (or each `batch`, which D1 runs as a transaction) is one atomic
  step. What a handler read earlier is a parameter of its later step, so a sequence of steps stands for any
  interleaving of handlers. Classes carry the same tables as fields and are proved to take the same steps.
- Native threads and tasks take one step per lock, atomic operation or await point.

Assumptions, stated where they are used:

- Clocks are parameters. Theorems that need an order say so (`InOrder`, `Punctual`, `ClockOrdered`); the
  ticket theorems hold for any clock.
- Hashes and `Url::join` are parameters. Injectivity, and hexadecimal output for the resource hash, are
  hypotheses of the theorems that use them. The authorization hash of a link is modelled by the hashed value.
- Tickets are signed, so a presented stamp passed the gate, on the row or on an earlier row of the same TV.
- Strings are sequences of Unicode scalar values; inputs that are not UTF-8 fail before the modelled code.
- Cascades and triggers are those of the migrations.
- A bridge request without an id is cancelled at once (its cancellation sender is dropped on registration,
  src-tauri/src/http_lifecycle.rs:80-90), although the id is documented as optional; the model follows the code
  (`PermitGates.IdlessIsCancelledAtOnce`).
- Locks are never poisoned and operations do not panic.
- A connected account is its stored JSON text, and each edit of an operation is a function on that text, fixed
  by whatever the remote service answered; parsing a stored text and printing it again changes nothing.
- JSON integers are unbounded and a float is represented by the text it prints as, so two floats are equal
  when their texts are (`-0.0` and `0.0` differ).

Where a guarantee fails, an if-and-only-if theorem says when, for all inputs, and a lemma gives an input:

| guarantee | exactly when it holds | input where it fails |
|---|---|---|
| a chunk is kept for its retention window | `RecordChunks.RetentionIff` | `LateStampShortensRetention` |
| the account lease loses no update | `AccountLease.AcquireIsSafeIff`, `NoLostUpdateIff` | `DeletionWithinOneMillisecondLosesUpdate`, `BackwardClockLosesUpdate` |
| a sync returns the account | `DeltaSync.ReplayConvergesIff`, `PagedSync.PagedSyncConvergesIff` | `SyncMissesItem` |
| an old ticket is refused after the TV is paired again | `TvTicket.EarlierTicketIff`, `SpentAgainIff` | `SameMillisecondReadmits`, `SpentStampReadmits` |
| the pool fills its output | `MapLimit.CompleteIff` | `ZeroLimitLeavesHole` |
| subtitle conversion round-trips | `Subtitles.ConversionsUndoEachOther` | `ArrowedCommaExample` |
| playlist rewriting keeps the line count | `PlaylistRewrite.LineCountKeptIff` | `BareReturnDropsLine` |
| playlist rewriting keeps every byte outside references | `PlaylistRewrite.BytesKeptIff` | `PaddingIsDropped` |

The download loop need not end: `Download.DownloadEnds` bounds it by the number of bad turns, so it runs for
ever only if they never stop, and `IgnoredRangeNeverEnds`, `RejectedRangeNeverEnds` and
`EmptyRefillNeverEnds` are runs without end for each kind of bad turn.

`dafny verify dfyconfig.toml` checks the whole project.

## Model

| member | source | states |
|---|---|---|
| `RecordChunks.RunsKeepSound` | cloudflare-sync-worker/src/record-chunks.js:11-49 | In every run of interleaved collections, uploads, commits, overwrites and device deletions: every manifest names only stored chunks, every payload hashes to its id, and every slot is within the staging budget |
| `RecordChunks.CountMeansAllPresent` | cloudflare-sync-worker/src/record-chunks.js:39-41 | The guard compares a row count with the list length; for deduplicated ids that holds exactly when every named chunk is stored |
| `RecordChunks.CommitSwapsOnlyComplete` | cloudflare-sync-worker/src/record-chunks.js:35-42 | A commit replaces the record exactly when the upload is complete, and removes no chunk |
| `RecordChunks.InsertKeepsBudget` | cloudflare-sync-worker/src/record-chunks.js:23-27 | The guarded upload keeps every slot within the budget, although it adds bytes to a sum of SQL lengths |
| `RecordChunks.SqlLengthWithinBytes` | cloudflare-sync-worker/src/record-chunks.js:24-27 | SQL length never exceeds the UTF-8 byte length, and equals it on plain ASCII payloads |
| `RecordChunks.PlainBytesWithinBudget` | cloudflare-sync-worker/src/record-chunks.js:25-27 | For ASCII payloads the budget bounds the stored bytes themselves |
| `RecordChunks.AcceptedUploadIsStored` | cloudflare-sync-worker/src/record-chunks.js:12-27 | With an injective hash an accepted upload is stored with its payload and stamp, also when the chunk was there already |
| `RecordChunks.UploadIsStoredIff` | cloudflare-sync-worker/src/record-chunks.js:23-27 | An upload is stored and stamped exactly while the SQL lengths of the other chunks of its slot and its own bytes add up to at most 96 MiB; otherwise nothing changes |
| `RecordChunks.RecordIsLastWrite` | cloudflare-sync-worker/src/record-chunks.js:32-49 | In every run a record is what its last effective write made it: an overwrite, a commit all of whose chunks were there, or the deletion of its device |
| `RecordChunks.CommittedLibraryIsReadable` | cloudflare-sync-worker/src/record-chunks.js:17-49 | Until its record is written again, whatever is uploaded or collected and however late, a committed library has exactly the committed parts under its ids |
| `RecordChunks.DeviceIsForgotten` | cloudflare-sync-worker/src/index.js:1010-1014 | Deleting a device leaves none of its chunks and records and all of the others |
| `RecordChunks.DigestsAreIds` | cloudflare-sync-worker/src/record-chunks.js:7-15 | The hexadecimal name of a 32-byte digest is a valid chunk id, and different digests have different names |
| `RecordChunks.PromiseStandsIff` | cloudflare-sync-worker/src/record-chunks.js:19-22 | A stored chunk outlives every collection up to the end of the window if and only if its stamp is recent enough or the active manifest names it |
| `RecordChunks.RetentionIff` | cloudflare-sync-worker/src/record-chunks.js:17-47 | Over any run, whatever order the stamps have: the promise of a put or a naming commit stands at the end if and only if the last touch of the chunk is stamped no earlier, or the active manifest names the chunk |
| `RecordChunks.RetainedThroughWindow` | cloudflare-sync-worker/src/record-chunks.js:17-22 | A chunk stamped at `since` or later stays through the window unless its last touch is stamped earlier |
| `RecordChunks.TouchedChunkIsRetained` | cloudflare-sync-worker/src/record-chunks.js:17-27 | With ordered stamps a chunk put, or named by a commit while present, survives every collection in its retention window |
| `RecordChunks.UploadWithinWindowCommits` | cloudflare-sync-worker/src/record-chunks.js:37-46 | If every named chunk was put within the window and not stamped earlier since, the commit installs the manifest, whatever else ran in between |
| `RecordChunks.OrderedUploadCounts` | cloudflare-sync-worker/src/record-chunks.js:37-46 | Ordered clocks that stay within the window meet that condition |
| `RecordChunks.LateStampShortensRetention` | cloudflare-sync-worker/src/record-chunks.js:26-27 | A run in which a late write lowers the stamp of a chunk and it is collected inside its window |
| `RecordChunks.Dedup` | cloudflare-sync-worker/src/record-chunks.js:34 | The deduplicated list has the same ids, each once |
| `RecordChunks.Deduplicate` | cloudflare-sync-worker/src/record-chunks.js:34 | The loop computes exactly the first occurrences in order |
| `RecordChunks.RecordStore.CollectStale` | cloudflare-sync-worker/src/record-chunks.js:17-22 | Deletes exactly the stale chunks the active manifest does not name |
| `RecordChunks.RecordStore.SumOthers` | cloudflare-sync-worker/src/record-chunks.js:25 | Computes the staged length of the slot without the chunk itself |
| `RecordChunks.RecordStore.InsertWithinBudget` | cloudflare-sync-worker/src/record-chunks.js:23-27 | Inserts or restamps exactly when the budget admits it, and reports which |
| `RecordChunks.RecordStore.PutRecordChunk` | cloudflare-sync-worker/src/record-chunks.js:11-30 | Lets through exactly 64 lower-case hexadecimal digits that are the hash of at most 330 KiB; then collects and inserts within budget; keeps the invariant and the records |
| `RecordChunks.RecordStore.CommitChunkedRecord` | cloudflare-sync-worker/src/record-chunks.js:32-49 | Accepts exactly the lists of 1 to 512 valid ids whose chunks were all stored before; any other reply leaves the records as they were |
| `RecordChunks.RecordStore.PutRecord` | cloudflare-sync-worker/src/index.js:229-231 | A plain overwrite clears the manifest and keeps the invariant |
| `AccountLease.RunsAreFenced` | cloudflare-sync-worker/src/accounts.js:59-77 | Over all interleavings whose acquisitions take new leases, whatever the clocks do: the row holds the latest persisted value, unfinished leases differ, and the copy of the holder is current |
| `AccountLease.AcquireIsSafeIff` | cloudflare-sync-worker/src/accounts.js:62-72 | From a granted acquisition on no update can be lost if and only if no unfinished request carries the lease it takes |
| `AccountLease.NoLostUpdateIff` | cloudflare-sync-worker/src/accounts.js:59-77 | Neither a run nor any continuation of it loses an update if and only if every granted acquisition of the run took a new lease |
| `AccountLease.PunctualTakesNewLeases` | cloudflare-sync-worker/src/accounts.js:62-63 | A clock that does not go back, up to a deletion within its millisecond, makes every lease new |
| `AccountLease.PersistBuildsOnLatest` | cloudflare-sync-worker/src/accounts.js:68-72 | No lost update: every persist that succeeds replaces the value its request last read or wrote, and stores that value with the edits the request has made since, applied in order |
| `AccountLease.CopyIsItsEdits` | cloudflare-sync-worker/src/accounts.js:66-73 | In every run, new leases or not, the copy of a request is the value it last read or wrote with its own edits since applied |
| `AccountLease.UneditedPersistKeepsText` | cloudflare-sync-worker/src/accounts.js:66-71 | A request that edits nothing stores what is stored |
| `AccountLease.AcquireOutcome` | cloudflare-sync-worker/src/accounts.js:62-64 | An expired or returned lease is granted for two minutes; a live one turns the request away and leaves the row |
| `AccountLease.UndisturbedRequest` | cloudflare-sync-worker/src/accounts.js:59-77 | Acquire, load, edit, persist and release with nothing in between store the edited value at the next revision, if it is small enough, and return the lease |
| `AccountLease.LeaseKeepsOthersOut` | cloudflare-sync-worker/src/accounts.js:62-75 | While a request has the row, every acquisition within its two minutes is turned away whatever else happens, and its own copy can still be stored |
| `AccountLease.OneHolder` | cloudflare-sync-worker/src/accounts.js:62-64 | At most one unfinished request holds the row |
| `AccountLease.SupersededStaysOut` | cloudflare-sync-worker/src/accounts.js:70-75 | A request superseded after expiry can never again persist, nor release its successor's lease |
| `AccountLease.RevisionCountsPersists` | cloudflare-sync-worker/src/accounts.js:70 | `revision` grows by exactly one per successful persist while the row lives |
| `AccountLease.DeletionWithinOneMillisecondLosesUpdate` | cloudflare-sync-worker/src/index.js:661 | A run that loses an update: the row is deleted and recreated within one millisecond |
| `AccountLease.BackwardClockLosesUpdate` | cloudflare-sync-worker/src/accounts.js:62-75 | A run that loses an update without any deletion: the clock goes back to the stamp of an unfinished request |
| `AccountLease.AccountTable.InsertOrIgnore` | cloudflare-sync-worker/src/accounts.js:61 | Creates the empty row only when there is none |
| `AccountLease.AccountTable.TakeLease` | cloudflare-sync-worker/src/accounts.js:62-64 | Takes the lease exactly when the stored one has expired |
| `AccountLease.AccountTable.SaveConnection` | cloudflare-sync-worker/src/accounts.js:68-72 | Persists exactly when the value fits and the lease is still ours |
| `AccountLease.AccountTable.ReleaseLease` | cloudflare-sync-worker/src/accounts.js:75 | Clears the lease only if it is ours |
| `AccountLease.AccountTable.Operate` | cloudflare-sync-worker/src/accounts.js:66-73 | The operation: each edit is applied to the copy and persisted, up to the first that is too large |
| `AccountLease.AccountTable.WithAccount` | cloudflare-sync-worker/src/accounts.js:59-77 | Undisturbed, all edits up to the first oversized one are stored, the revision counts them, and the lease is returned |
| `DeltaSync.SnapshotWithDelta` | cloudflare-sync-worker/src/accounts.js:206-223 | The snapshot and replay loops compute the replay specification, errors included |
| `DeltaSync.ReplayPage` | cloudflare-sync-worker/src/accounts.js:213-219 | The inner loop applies a page exactly when all its events are valid, and moves the cursor to the greatest id |
| `DeltaSync.ReplayIsExact` | cloudflare-sync-worker/src/accounts.js:211-222 | Against an honest server the replay gives up only after ten full pages; otherwise it applied exactly the events from the cursor to the last read |
| `DeltaSync.ReplayConvergesIff` | cloudflare-sync-worker/src/accounts.js:205-223 | The replayed snapshot is the account at the last read if and only if the snapshot agreed at the cursor on every key no replayed event touches |
| `DeltaSync.HeldMeanwhileIsFaithful` | cloudflare-sync-worker/src/accounts.js:205-210 | A snapshot whose keys each have a value held between cursor and last read meets that condition |
| `DeltaSync.SyncConverges` | cloudflare-sync-worker/src/accounts.js:206-223 | End to end: the call either throws or returns the account at the last delta read, exactly under that condition; never a partial replay |
| `DeltaSync.ReplayOutcome` | cloudflare-sync-worker/src/accounts.js:211-222 | Whatever the service answers, the first page that is not good and full decides: an error for a bad page, the pages so far for a short one, too quick after ten; part of a bad page is never returned |
| `DeltaSync.ReplaySucceedsIff` | cloudflare-sync-worker/src/accounts.js:211-222 | For any service: the replay returns if and only if some page before the tenth is the first short one and every event up to it is a known operation with a safe id above the cursor its page was asked with |
| `DeltaSync.MaxIdIsGreatest` | cloudflare-sync-worker/src/accounts.js:218 | The cursor moves to the greatest id of the page, never back |
| `DeltaSync.Pages` | cloudflare-sync-worker/src/accounts.js:185-193 | The paging loop computes its specification |
| `DeltaSync.PagesOfStableList` | cloudflare-sync-worker/src/accounts.js:185-193 | On a list that does not change, paging returns the whole list, or throws exactly when it fills ten pages |
| `DeltaSync.PagesOutcome` | cloudflare-sync-worker/src/accounts.js:185-193 | Whatever the service answers, the first page that is no full list decides: a short one ends the load with all pages up to it, anything else throws, and so do ten full pages |
| `DeltaSync.SettingKeepsOrder` | cloudflare-sync-worker/src/accounts.js:217 | Setting a known key keeps its place and a new one goes last |
| `DeltaSync.DeletingKeepsOrder` | cloudflare-sync-worker/src/accounts.js:217 | Deleting closes the gap |
| `DeltaSync.SetItemUpdates` | cloudflare-sync-worker/src/accounts.js:217 | Setting a key keeps keys unique and updates the table at that key |
| `DeltaSync.DeleteKeyRemoves` | cloudflare-sync-worker/src/accounts.js:217 | Deleting a key removes it and nothing else |
| `PagedSync.LogServerIsHonest` | cloudflare-sync-worker/src/accounts.js:207-212 | A server that answers every delta read from its log, at most a page at a time, meets the honesty assumption |
| `PagedSync.PagesOfChangingList` | cloudflare-sync-worker/src/accounts.js:185-193 | Over a list that changes between reads, paging returns exactly the windows it read |
| `PagedSync.PagingIsFaithfulIff` | cloudflare-sync-worker/src/accounts.js:205-224 | Those pages make a snapshot the replay completes if and only if every key no replayed event touches lay in the window of some page when it was read |
| `PagedSync.PagedSyncConvergesIff` | cloudflare-sync-worker/src/accounts.js:185-224 | Loading and replaying composed, over a changing account: the sync throws, or returns the account at the last delta read exactly under that condition |
| `PagedSync.SyncMissesItem` | cloudflare-sync-worker/src/accounts.js:185-224 | A sync that succeeds and is wrong: one item is deleted between two page reads, and the result is not the account |
| `ClientLinks.ClaimIsAllOrNothing` | cloudflare-sync-worker/src/client-links.js:189-212 | The three chained writes leave either device, consumed marker and membership together, or nothing |
| `ClientLinks.RunsAreSound` | cloudflare-sync-worker/src/client-links.js:87-217 | In every run of all writers: consumed links have their device and membership, at most one link per TV waits, waiting links carry the authorization in force, tokens are unique, references hold |
| `ClientLinks.ConsumedLinkStands` | cloudflare-sync-worker/migrations/0008_companion_client_links.sql:13-20 | No step rewrites a consumed link, its device, membership or TV while the link is stored |
| `ClientLinks.OwnerCannotLeave` | cloudflare-sync-worker/src/index.js:1010-1014 | The guarded device deletion never removes the owner a claimed link depends on: its device and profile stay as they are |
| `ClientLinks.ClaimStandsThroughout` | cloudflare-sync-worker/src/client-links.js:157-217 | That holds over whole runs |
| `ClientLinks.LinkIsSingleUse` | cloudflare-sync-worker/src/client-links.js:186-216 | After an accepted claim every further claim of the link, by anybody, changes nothing, and only the claiming credentials are answered |
| `ClientLinks.RetryGetsSameAnswer` | cloudflare-sync-worker/src/client-links.js:164-186 | A retry with the same credentials before expiry, the owner's profile untouched, gets the same payload; recovery once stored stays |
| `ClientLinks.ClaimRespectsCap` | cloudflare-sync-worker/src/client-links.js:201 | A claim adds at most one device, exactly when accepted, and then the count stays within the cap |
| `ClientLinks.MintReplacesOrKeeps` | cloudflare-sync-worker/src/client-links.js:133-150 | A mint stores a link exactly when the window is open and the context unchanged; it is then the only waiting one; a closed window keeps the link already waiting |
| `ClientLinks.MintSparesOthers` | cloudflare-sync-worker/src/client-links.js:135-147 | Whatever a mint replies, unexpired links of other TVs and consumed links stay as they are |
| `ClientLinks.RowsAreImmutableThroughout` | cloudflare-sync-worker/src/client-links.js:133-217 | Apart from the consumed marker a stored link never changes, in any run that does not mint its token again |
| `ClientLinks.ClaimDeliversMintedPayload` | cloudflare-sync-worker/src/client-links.js:133-217 | End to end: an accepted claim is answered with the payload that was minted, within its lifetime and under the same authorization |
| `ClientLinks.FullWindowBlocksMinting` | cloudflare-sync-worker/src/client-links.js:140-147 | While a full failure window is open no run of steps stores a link for the TV |
| `ClientLinks.WindowIsItsFailures` | cloudflare-sync-worker/src/client-links.js:114-126 | The failure window of a TV is the limiter run over exactly the failures recorded since it was paired; nothing else moves it |
| `ClientLinks.CountedAreTheLimiters` | cloudflare-sync-worker/src/client-links.js:114-126 | The failures a run of all writers counts are exactly those the limiter counts |
| `ClientLinks.FailedUnlocksPerSpan` | cloudflare-sync-worker/src/client-links.js:114-126 | Over any run of all writers, any closed span of L milliseconds holds at most 5 * (L / 60000 + 2) counted failed unlocks |
| `ClientLinks.SaveProfileKeepsSound` | cloudflare-sync-worker/migrations/0008_companion_client_links.sql:37-48 | Saving or deleting a profile leaves no link waiting under an authorization that is no longer in force |
| `ClientLinks.RemoveDeviceKeepsSound` | cloudflare-sync-worker/src/index.js:1010-1014 | Device deletion and its cascades keep the invariant |
| `ClientLinks.LinkStore.StoreLink` | cloudflare-sync-worker/src/client-links.js:133-153 | The mint batch, statement by statement, with rollback when the token exists |
| `ClientLinks.LinkStore.CancelLink` | cloudflare-sync-worker/src/client-links.js:95-99 | Cancels a waiting link of that TV and nothing else |
| `ClientLinks.LinkStore.FailUnlockAttempt` | cloudflare-sync-worker/src/client-links.js:114-128 | The guarded counter update and the row read back |
| `ClientLinks.LinkStore.ClaimLink` | cloudflare-sync-worker/src/client-links.js:157-217 | The claim handler, read, batch and guarded answer; when it grants is `ClaimGrants.ClaimGrantedIff` |
| `ClientLinks.LinkStore.Respond` | cloudflare-sync-worker/src/client-links.js:170-185 | Answers exactly the stored credentials of a live, authorized, complete claim |
| `ClientLinks.LinkStore.StoreRecovery` | cloudflare-sync-worker/src/client-links.js:228-232 | Recovery is stored once and never overwritten |
| `ClientLinks.LinkStore.Matches` | cloudflare-sync-worker/src/client-links.js:140-145 | The joined row guard holds exactly when the current context is the one the handler saw |
| `ClaimGrants.ClaimGrantedIff` | cloudflare-sync-worker/src/client-links.js:157-217 | A claim is granted if and only if the link is unexpired on all three clocks, its authorization is in force, its profile reads, and either it waits and device id, token and cap admit a new device, or this device and token consumed it; it is answered with the payload |
| `ClaimGrants.ClaimExpiredIff` | cloudflare-sync-worker/src/client-links.js:157-168 | Exactly when the handler answers that the link expired, nothing being written |
| `ClaimGrants.ClaimBatchIff` | cloudflare-sync-worker/src/client-links.js:189-212 | Whatever happened between reading and writing, the batch consumes the link and adds device and membership exactly if the link waits unexpired under the authorization that was seen, that is in force, and the device is new; otherwise it writes nothing |
| `ClaimGrants.StaleClaimIsRefused` | cloudflare-sync-worker/src/client-links.js:170-205 | In any tables, a claim under a stale or foreign authorization writes nothing and is not answered |
| `ClaimGrants.ProfileIsSaved` | cloudflare-sync-worker/migrations/0008_companion_client_links.sql:37-48 | Saving or deleting a profile deletes exactly the links waiting on the TVs of its owner |
| `ClaimGrants.PairingIsAdded` | cloudflare-sync-worker/src/index.js:289-297 | When a pairing is added, and the membership of a creator who is not its owner |
| `ClaimGrants.RecoveryIsStoredOnce` | cloudflare-sync-worker/src/client-links.js:228-232 | The first recovery stored for a TV stays |
| `ClaimGrants.WaitingLinkAnswered` | cloudflare-sync-worker/src/client-links.js:189-217 | The same for the batch on a waiting link |
| `ClaimGrants.ConsumedLinkAnswered` | cloudflare-sync-worker/src/client-links.js:170-186 | And on a consumed one: it changes nothing and answers its claimer |
| `ClaimGrants.MintStoredIff` | cloudflare-sync-worker/src/client-links.js:133-153 | A mint is stored if and only if TV and profile are as they were seen, fewer than five failures count or their window is over, and no live link has the token; what it stores lives ten minutes |
| `ClaimGrants.FiveFailuresCloseWindow` | cloudflare-sync-worker/src/client-links.js:114-126 | Any five failures within a minute of the first close the window until that minute is over |
| `ClaimGrants.CancelDeletesWaiting` | cloudflare-sync-worker/src/client-links.js:95-99 | Cancelling deletes the waiting link of that TV and token, and nothing else |
| `ClaimGrants.MintedLinkCanBeClaimed` | cloudflare-sync-worker/src/client-links.js:133-217 | End to end over runs: a minted link is granted, with its payload, to the first new device that claims it within its ten minutes |
| `ClaimGrants.FirstLinkWorks` | cloudflare-sync-worker/src/client-links.js:133-217 | From empty tables: an owner joins, pairs a TV, the TV mints, and a second device is granted |
| `FailureLimiter.CountedAreSpaced` | cloudflare-sync-worker/src/client-links.js:114-126 | Windows start at least 60 seconds apart, contain their failures and count at most five |
| `FailureLimiter.CounterIsCapped` | cloudflare-sync-worker/src/client-links.js:119-122 | The failure counter never passes five, whatever the clocks do |
| `FailureLimiter.FailuresPerSpan` | cloudflare-sync-worker/src/client-links.js:114-126 | With an ordered clock the counter never passes five, and any closed span of L milliseconds holds at most 5 * (L / 60000 + 2) counted failures |
| `TvTicket.RunsAreSound` | cloudflare-sync-worker/src/index.js:795-797 | Whatever the clocks do, every successful update strictly raises the column; passed lookups keep their distance; a spent ticket follows the update that wrote its stamp |
| `TvTicket.SpendableIffLast` | cloudflare-sync-worker/src/tv-source-lookup.js:91-96 | A genuine ticket is spendable exactly while its own lookup is the row's last update |
| `TvTicket.TicketsAreOneShot` | cloudflare-sync-worker/src/tv-source-lookup.js:91-96 | On one row each ticket is spent at most once, while valid, and a ticket of the row never after a later lookup passed the gate |
| `TvTicket.SupersededForGood` | cloudflare-sync-worker/src/tv-source-lookup.js:91-96 | Once spent or superseded a ticket fails in every continuation |
| `TvTicket.LookupsKeepDistance` | cloudflare-sync-worker/src/index.js:795-797 | Lookups that pass the gate carry stamps at least the minimum interval apart |
| `TvTicket.LookupPassesIff` | cloudflare-sync-worker/src/index.js:795-797 | A lookup is let through exactly when the last update of the row is 1.5 seconds old, and stamps it |
| `TvTicket.TicketIsSpentIff` | cloudflare-sync-worker/src/tv-source-lookup.js:66-96 | A ticket of the row is spent exactly within two minutes of its lookup and while that is the last update; the column then moves past its stamp |
| `TvTicket.FreshTicketWorks` | cloudflare-sync-worker/src/tv-source-lookup.js:66-96 | After any run, a lookup that is let through gives a ticket that works |
| `TvTicket.EarlierTicketIff` | cloudflare-sync-worker/src/tv-source-lookup.js:91-96 | On the row of a TV that was paired again, a ticket from before is accepted if and only if the last successful update wrote its stamp |
| `TvTicket.LaterStampsRefuseEarlierTicket` | cloudflare-sync-worker/src/tv-source-lookup.js:91-96 | So it is refused as long as every stamp of the new row is later |
| `TvTicket.SpentAgainIff` | cloudflare-sync-worker/src/tv-source-lookup.js:91-96 | A ticket spent on one row can be spent again on the next exactly while the last update there carries its stamp |
| `TvTicket.SameMillisecondReadmits` | cloudflare-sync-worker/src/index.js:290-293 | An old, spent ticket accepted again: the TV is paired again and looks up in the same millisecond |
| `TvTicket.SpentStampReadmits` | cloudflare-sync-worker/src/tv-source-lookup.js:91-96 | Another: a new ticket is spent at the stamp of the old one |
| `TvTicket.PairingRow.PassGate` | cloudflare-sync-worker/src/index.js:795-797 | The gate update succeeds exactly when the interval has passed |
| `TvTicket.PairingRow.Consume` | cloudflare-sync-worker/src/tv-source-lookup.js:91-96 | The compare-and-swap succeeds exactly when the column still holds the ticket's stamp, and raises it |
| `MapLimit.RunsAreBounded` | cloudflare-sync-worker/src/resolver.js:709-720 | Indices are started in order and at most once, never more operations than `limit` are in flight, none without a positive one, and no index has two workers |
| `MapLimit.LimitIsReached` | cloudflare-sync-worker/src/resolver.js:718 | Some schedule puts exactly the smaller of `limit` and the number of values in flight |
| `MapLimit.PoolIsBusy` | cloudflare-sync-worker/src/resolver.js:712-718 | In every run, once no worker is between operations and none was rejected, that many are in flight or every value was started |
| `MapLimit.StepKeepsSound` | cloudflare-sync-worker/src/resolver.js:712-717 | Every started index is held by one worker or has delivered its value |
| `MapLimit.SettledIsMap` | cloudflare-sync-worker/src/resolver.js:709-720 | When all workers settled the call rejects exactly if an operation does; otherwise the output is the element-wise map in order |
| `MapLimit.CompleteIff` | cloudflare-sync-worker/src/resolver.js:718 | The output is complete if and only if the limit is positive or there is nothing to do |
| `MapLimit.ZeroLimitLeavesHole` | cloudflare-sync-worker/src/resolver.js:718 | One value and a limit of zero: the call settles at once with a hole |
| `MapLimit.SchedulesEnd` | cloudflare-sync-worker/src/resolver.js:712-717 | No schedule has more than three effective steps per value, so all workers finish |
| `MapLimit.WorkerPool.Resume` | cloudflare-sync-worker/src/resolver.js:712-717 | A worker takes the next index or settles its operation, on the shared cursor and output |
| `PresenceMailbox.RunsAreSound` | src-tauri/src/desktop_presence.rs:331-358 | Under every interleaving: the flag is up exactly while one thread drains, a waiting job is minded, jobs are processed in order, and the newest job is never lost |
| `PresenceMailbox.WaitingJobHasThread` | src-tauri/src/desktop_presence.rs:350-356 | A waiting job always has a worker or a thread still bound to look at the flag or slot, and at most one worker drains |
| `PresenceMailbox.QuiescentHasDrained` | src-tauri/src/desktop_presence.rs:342-357 | At quiescence the slot is empty and the last job processed is the last one queued |
| `PresenceMailbox.StepLowersRank` | src-tauri/src/desktop_presence.rs:342-357 | Every step uses up a bounded budget |
| `PresenceMailbox.SchedulesEnd` | src-tauri/src/desktop_presence.rs:342-357 | Without new callers every schedule ends, so quiescence is reached |
| `PresenceMailbox.DesktopPresence.QueueDiscord` | src-tauri/src/desktop_presence.rs:331-335 | A call enters as a producer with its job |
| `PresenceMailbox.DesktopPresence.Step` | src-tauri/src/desktop_presence.rs:332-357 | One atomic operation of one thread on the shared slot and flag |
| `PermitGates.RunsAreSound` | src-tauri/src/http_lifecycle.rs:75-187 | For every mix of arrivals, completions, timeouts and cancellations: permits are conserved, held permits follow class and phase, and the table lists exactly the ids of live requests |
| `PermitGates.ExtensionsLeaveHalf` | src-tauri/src/http_lifecycle.rs:124-160 | Extension requests hold at most 6 of the 12 global permits and only while working; background and playback requests hold none |
| `PermitGates.NoDeadlock` | src-tauri/src/http_lifecycle.rs:124-160 | Whenever a request waits, another works or some permit can be taken |
| `PermitGates.SchedulesDrain` | src-tauri/src/http_lifecycle.rs:114-177 | If work ends, every schedule ends, and one that cannot go on leaves all permits free and the table empty |
| `PermitGates.StuckIsIdle` | src-tauri/src/http_lifecycle.rs:114-177 | A bridge in which nothing can advance is idle |
| `PermitGates.CancelFindsLiveRequest` | src-tauri/src/http_lifecycle.rs:80-187 | Cancelling reports true exactly when a registered request can still hear it; a duplicate id is rejected without effect |
| `PermitGates.CancelIsHeard` | src-tauri/src/http_lifecycle.rs:101-187 | A request that can hear a cancellation is reported as signalled, and at every later step at which it has not ended it may end as cancelled |
| `PermitGates.EndsWhen` | src-tauri/src/http_lifecycle.rs:171-176 | A waiting or working request may time out at any step, complete once it works, and end as cancelled once signalled or without an id; otherwise nothing happens |
| `PermitGates.RegistersIff` | src-tauri/src/http_lifecycle.rs:80-99 | An id is accepted exactly while no unfinished request carries it; the new request waits, holds nothing and is not cancelled |
| `PermitGates.GlobalLaneStartsIff` | src-tauri/src/http_lifecycle.rs:124-160 | An extension request passes its gate exactly while fewer than 6 are past it, and a global permit is granted exactly while fewer than 12 metadata and extension requests work |
| `PermitGates.LanesAreIndependent` | src-tauri/src/http_lifecycle.rs:19-24 | A waiting playback request starts exactly while fewer than 4 of its lane work, a background one while fewer than 8 do, however saturated the other lanes are |
| `PermitGates.SignalsAreCancellations` | src-tauri/src/http_lifecycle.rs:93-110 | A request with an id sees a cancellation only if its id was cancelled after it registered |
| `PermitGates.IdlessIsCancelledAtOnce` | src-tauri/src/http_lifecycle.rs:80-110 | A new request may end as cancelled at once exactly if it has no id |
| `PermitGates.HttpLifecycle.Register` | src-tauri/src/http_lifecycle.rs:80-91 | Rejects a duplicate id before registering |
| `PermitGates.HttpLifecycle.TryAcquire` | src-tauri/src/http_lifecycle.rs:131-160 | Takes a permit exactly when one is free |
| `PermitGates.HttpLifecycle.Resume` | src-tauri/src/http_lifecycle.rs:123-169 | The next await point of a request: class permit first, then the global one |
| `PermitGates.HttpLifecycle.DropWork` | src-tauri/src/http_lifecycle.rs:171-176 | Dropping the guarded future returns exactly the permits it held |
| `PermitGates.HttpLifecycle.CancelRequest` | src-tauri/src/http_lifecycle.rs:179-187 | The signal reaches the registered request |
| `ResumeProtocol.AcceptedRangeIsInside` | src-tauri/src/direct_torrent_range.rs:11-51 | Every accepted range is nonempty and inside the file |
| `ResumeProtocol.PrintedOpenRange` | src-tauri/src/direct_torrent_range.rs:11-51 | A printed open range is accepted exactly if it starts inside the file, and means the rest |
| `ResumeProtocol.PrintedClosedRange` | src-tauri/src/direct_torrent_range.rs:11-51 | A printed closed range is accepted exactly if it is ordered and starts inside the file; its end is clipped, saturating add included |
| `ResumeProtocol.PrintedSuffixRange` | src-tauri/src/direct_torrent_range.rs:11-51 | A printed suffix range is accepted exactly if it is positive, and means the last bytes |
| `ResumeProtocol.SatisfiedRangeReadsBack` | src-tauri/src/download.rs:301-312 | A printed Content-Range parses back to its start and total, and is refused if reversed or past its own total |
| `ResumeProtocol.UnsatisfiedRangeReadsBack` | src-tauri/src/download.rs:301-312 | The unsatisfied form parses back to its total |
| `ResumeProtocol.MalformedIsRejected` | src-tauri/src/direct_torrent_range.rs:11-51 | Anything but one range of bytes is refused, and so is every range of an empty file |
| `ResumeProtocol.ClosedRangeIsServed` | src-tauri/src/direct_torrent_stream.rs:207-279 | A closed range of a file is answered with exactly those bytes, clipped to its end, and the Content-Range that says so |
| `ResumeProtocol.SuffixRangeIsServed` | src-tauri/src/direct_torrent_stream.rs:207-279 | A suffix range is answered with the last bytes, all of them if there are fewer |
| `ResumeProtocol.WholeOrNothing` | src-tauri/src/direct_torrent_stream.rs:207-279 | Without a range the whole file is sent; a range that cannot be satisfied or read is answered with the length only |
| `ResumeProtocol.ResumeNeedsItsRange` | src-tauri/src/download.rs:318-358 | Only a partial answer that starts where the part ends is appended, only an unsatisfiable one that names its length completes it, and a 200 restarts |
| `ResumeProtocol.FirstAnswerIsTaken` | src-tauri/src/download.rs:318-358 | The first request takes any successful answer that starts at the beginning |
| `ResumeProtocol.ServerAndClientCompose` | src-tauri/src/direct_torrent_stream.rs:207-279 | For every file and every local length the answer to `bytes=R-` is classified as append with the total, complete, or restart, and the body is the missing rest |
| `Download.RunDownload` | src-tauri/src/download.rs:654-817 | The loop leaves the file and outcome its specification gives |
| `Download.TakeTurn` | src-tauri/src/download.rs:674-811 | One request and its answer, every branch |
| `Download.ReadStream` | src-tauri/src/download.rs:748-799 | The chunk loop |
| `Download.DownloadIsFaithful` | src-tauri/src/download.rs:654-817 | Against any honest server the part file is a prefix of the content at every turn; a rename with a known total happens only for the whole content |
| `Download.DownloadFinishes` | src-tauri/src/download.rs:654-817 | However the download went so far, one uncut, uncancelled media reply that continues the part and delivers the missing bytes ends the run with the exact file renamed, its size known or not |
| `Download.CompleteReplyRenames` | src-tauri/src/download.rs:694-816 | The same for one turn |
| `Download.CompleteRestartRenames` | src-tauri/src/download.rs:713-816 | So does the whole content, sent afresh in answer to a resume request |
| `Download.CompletePartRenames` | src-tauri/src/download.rs:699-712 | And so does a 416 that names the length the client has |
| `Download.OneServedReplyFinishes` | src-tauri/src/download.rs:654-817 | Against the byte-range server, from any prefix and after any run, one uncut reply ends in the rename of the exact file |
| `Download.StopsOnlyForReason` | src-tauri/src/download.rs:674-811 | A turn ends the download only in the rename, a refusal, a document, a cancellation, or when the retries are used up |
| `Download.MimeIsRead` | src-tauri/src/download.rs:284-291 | Parameters, padding and case of a content type do not matter |
| `Download.DocumentsAreRefused` | src-tauri/src/download.rs:726-765 | A fresh body declared as something else, or opening as a playlist or page, is refused and its part removed |
| `Download.SixFailuresAreRetried` | src-tauri/src/download.rs:668-697 | A new download survives six failed requests in a row and keeps its part; the seventh ends it |
| `Download.ReceivedIsKept` | src-tauri/src/download.rs:674-811 | From a server that honours Range no turn loses a byte that was received, unless it met a document |
| `Download.DocumentsAreRecognised` | src-tauri/src/download.rs:261-282 | Playlists and web pages are recognised at the start of a body, leading white space aside and for pages case too |
| `Download.PlainBytesAreMedia` | src-tauri/src/download.rs:261-282 | A body that starts with anything but white space, `<` or `#` is taken for media |
| `Download.ContentTypesAreSorted` | src-tauri/src/download.rs:284-297 | Text and JSON are refused as media; types that are neither text nor application are not |
| `Download.DownloadEnds` | src-tauri/src/download.rs:668-811 | Against an honest server the loop ends within a bound on requests that grows only with the bad turns: restarts, and replies that refill the retries without a byte |
| `Download.TurnLowersMeasure` | src-tauri/src/download.rs:674-811 | Every continuing turn lowers the measure (bytes left, retries left), unless it is a bad one |
| `Download.IgnoredRangeNeverEnds` | src-tauri/src/download.rs:713-723 | A never-ending run: an honest server answers every resume with 200 |
| `Download.RejectedRangeNeverEnds` | src-tauri/src/download.rs:713-723 | Another: it answers every resume with 416 |
| `Download.EmptyRefillNeverEnds` | src-tauri/src/download.rs:773-799 | Another: it honours Range, but sends empty chunks, each of which refills the retries |
| `Download.RangeServerCooperates` | src-tauri/src/direct_torrent_stream.rs:207-279 | The byte-range server is honest and honours Range |
| `Download.DownloadFromRangeServer` | src-tauri/src/download.rs:654-817 | End to end with that server: a rename only of the exact file, and a number of requests bounded by the bytes left, the retries and the empty refills |
| `Subtitles.ConvertSrt` | src-tauri/src/cast_relay.rs:914-930 | The line loop computes the conversion |
| `Subtitles.ConvertWebVtt` | src-tauri/src/cast_relay.rs:932-974 | The block loop prints exactly the usable cues, numbered from one |
| `Subtitles.ReadCue` | src-tauri/src/cast_relay.rs:941-962 | Reads one block, or skips it |
| `Subtitles.CuesAreWellFormed` | src-tauri/src/cast_relay.rs:941-966 | Every cue read has converted timestamps and a nonblank body of nonempty lines |
| `Subtitles.RoundTripDotsCues` | src-tauri/src/cast_relay.rs:914-974 | To WebVTT and back, cues keep number, order and times; only cue lines with an arrow change |
| `Subtitles.WrittenCaptionsConvert` | src-tauri/src/cast_relay.rs:932-974 | A written document converts to exactly its captions, in order and numbered from one; names, cue settings, the header and comments are dropped |
| `Subtitles.TimesConvert` | src-tauri/src/cast_relay.rs:951-957 | Minutes and seconds get an hour field, full times keep theirs, and the fraction's point becomes a comma |
| `Subtitles.SrtLinesAreKept` | src-tauri/src/cast_relay.rs:914-930 | SubRip lines come out in order, commas dotted on lines with an arrow only |
| `Subtitles.LineEndingsDoNotMatter` | src-tauri/src/cast_relay.rs:914-938 | A text, its CRLF form, its CR form and either with a byte order mark convert alike in both directions |
| `Subtitles.ConversionsUndoEachOther` | src-tauri/src/cast_relay.rs:914-974 | A converted document survives the round trip if and only if no cue line holds both `-->` and a comma |
| `Subtitles.ArrowedCommaExample` | src-tauri/src/cast_relay.rs:920-928 | A document that does not survive: its cue line comes back with a point for the comma |
| `CanonicalJson.CanonIsCanonical` | src-tauri/src/extension_package.rs:156-186 | Two documents have the same canonical text if and only if they are equal as JSON values, so the signed text determines the document |
| `CanonicalJson.CanonPrefixFree` | src-tauri/src/extension_package.rs:156-186 | A canonical text ends where its value ends |
| `CanonicalJson.SamePrintsAlike` | src-tauri/src/extension_package.rs:170-184 | Field order does not matter |
| `CanonicalJson.SortedEntries` | src-tauri/src/extension_package.rs:171 | The printed entries are one per field in strict key order |
| `CanonicalJson.QuoteEnds` | src-tauri/src/extension_package.rs:161 | String literals are determined by their text |
| `JsonGrammar.CanonSpells` | src-tauri/src/extension_package.rs:156-186 | The canonical text is a JSON text of the value by the grammar alone: literals, integers, decoded strings, and each object's fields once in strict byte order of their names |
| `JsonGrammar.QuoteSpells` | src-tauri/src/extension_package.rs:161 | A printed string literal decodes to its text |
| `JsonGrammar.PlainIsKept` | src-tauri/src/extension_package.rs:161 | Only quotation marks, backslashes and control characters are escaped |
| `JsonGrammar.KeyOrderIsByteOrder` | src-tauri/src/extension_package.rs:171 | The key order is the order of the UTF-8 bytes |
| `JsonGrammar.BytesAreCounted` | cloudflare-sync-worker/src/record-chunks.js:13 | The byte length the Worker limits is the number of UTF-8 bytes |
| `HlsAttribute.HlsAttribute` | src-tauri/src/download.rs:105-153 | The scanner ends, stays in bounds and computes the scan on every line |
| `HlsAttribute.ReadKeyAndValue` | src-tauri/src/download.rs:114-144 | The loops of one round |
| `HlsAttribute.ReadValue` | src-tauri/src/download.rs:123-140 | The loops over a value, quoted or not |
| `HlsAttribute.LookupInvertsPrint` | src-tauri/src/download.rs:105-153 | On every printed attribute list, looking up a name finds the first attribute of that name, case aside, and its trimmed value; commas and `=` inside quotes included |
| `HlsAttribute.EachAttributeIsFound` | src-tauri/src/download.rs:105-153 | With names that differ by more than case every attribute is found |
| `PlaylistRewrite.Playlist.RewritePlaylist` | src-tauri/src/hls_proxy.rs:297-327 | The line loop rewrites the pieces and registers their references, up to the first that does not resolve |
| `PlaylistRewrite.Playlist.RewriteUriAttributes` | src-tauri/src/hls_proxy.rs:391-409 | The attribute loop, on one tag line |
| `PlaylistRewrite.Playlist.RewriteContent` | src-tauri/src/hls_proxy.rs:313-322 | The three kinds of line |
| `PlaylistRewrite.Playlist.RegisterResource` | src-tauri/src/hls_proxy.rs:329-348 | Resolves, registers and localizes one reference |
| `PlaylistRewrite.TagKeepsSkeleton` | src-tauri/src/hls_proxy.rs:391-409 | Reading a rewritten tag again finds the same kept text and quotes, with local URLs as values |
| `PlaylistRewrite.RewriteKeepsSkeleton` | src-tauri/src/hls_proxy.rs:297-327 | Reading a rewritten playlist again finds the same lines, endings and kept bytes, with local URLs for references |
| `PlaylistRewrite.LineCountKeptIff` | src-tauri/src/hls_proxy.rs:305-324 | The line count is kept if and only if the text does not end in an unterminated line of carriage returns only |
| `PlaylistRewrite.BareReturnDropsLine` | src-tauri/src/hls_proxy.rs:305-324 | A playlist of two lines that comes back with one |
| `PlaylistRewrite.BytesKeptIff` | src-tauri/src/hls_proxy.rs:305-324 | Bytes outside references are all copied if and only if no line has a spare `\r` before its ending and no resource line is padded |
| `PlaylistRewrite.PaddingIsDropped` | src-tauri/src/hls_proxy.rs:318-324 | A resource line that loses the space in front of it |
| `PlaylistRewrite.RouteReadsBack` | src-tauri/src/hls_proxy.rs:440-448 | Every local path is accepted and names its playlist and resource |
| `PlaylistRewrite.RecordKeepsFaithful` | src-tauri/src/hls_proxy.rs:329-348 | Registering never changes what an earlier local URL stands for |
| `PlaylistRewrite.LocalUrlsResolve` | src-tauri/src/hls_proxy.rs:329-348 | Each local URL routes to an entry of the playlist's table that holds the base joined with the original reference |
| `PlaylistRewrite.NewPlaylistIsFaithful` | src-tauri/src/hls_proxy.rs:185-197 | A new playlist's named entry cannot be mistaken for a hashed one |
| `WrittenPlaylists.WrittenIsRewritten` | src-tauri/src/hls_proxy.rs:297-327 | A playlist written as blank, resource and tag lines is rewritten to the same lines and endings with a local URL for each reference and nothing else changed, if every reference joins; otherwise it fails |
| `WrittenPlaylists.TagIsRewritten` | src-tauri/src/hls_proxy.rs:391-409 | The same for one tag with any number of quoted `URI` attributes |
| `WrittenPlaylists.RouteIff` | src-tauri/src/hls_proxy.rs:440-448 | A path is a route exactly if it is slashes, `hls`, a token and a resource, possibly with a query, and names those two |

## Left out

- HTTP routing, JSON bodies, error texts and profile normalization: plumbing around the modelled steps.
- Signature, HMAC and envelope checks themselves: their outcome is an assumption or a parameter.
- `join` under concurrency: it may pass the device cap, because it counts devices before it inserts; nothing is claimed about it beyond the shared invariant.
- Readers of a superseded manifest: its chunks are protected only from their last put or commit, so no reader is promised to finish.
- The per-owner limit on pairings and the last-device guard: both are counts read before the write, and only make fewer runs possible.
- `updateDiscord` and the Discord connection state: the mailbox treats a job as opaque.
- FIFO order of the semaphores: any waiting request may take a free permit, which covers every order; fairness is not claimed.
- Timers, progress events, back-off delays and disk errors of the download loop; the stored file is a byte sequence.
- The twin playlist rewriter of the cast relay: the same loops with another resource id; its suffix and MIME rules are not modelled.
- Eviction of old playlists from the proxy: a local URL of an evicted playlist answers 404.
- HEAD responses and MIME headers of the range server.
- Fractional or missing limits of `mapLimit`, and what happens to its workers after the call has rejected.
- HlsAttribute.ReadKeyAndValue: the inner skip to the next comma after a key without `=` is omitted from the loop, because the key loop has already stopped at a comma.
- The torrent engine, cast devices, OAuth, display probing, filename and rating regexes, small clamps: foreign code, or easy members.
